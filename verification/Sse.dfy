/** The browser's event parser, and the server's encoder that it reads back. */
module Sse {
  import opened Decimals
  import opened Lines
  import opened SseFrames
  import opened Wrappers

  /** What JavaScript supplies: Number of a text when it is a positive integer, and JSON.parse. */
  datatype Platform<J> = Platform(number: string -> Option<nat>, json: string -> Option<J>)

  datatype Frame<J> = Frame(id: Option<nat>, event: string, data: J)

  datatype InvalidEvent = InvalidEvent

  // ------------------------------------------------------------------------ lines of a frame

  function BeforeBreak(s: string): (string, Option<string>) {
    if BreakLen(s) > 0 then ("", Some(s[BreakLen(s)..]))
    else if s == "" then ("", None)
    else
      var (line, rest) := BeforeBreak(s[1..]);
      ([s[0]] + line, rest)
  }

  lemma {:induction false} BeforeBreakShrinks(s: string)
    ensures BeforeBreak(s).1.Some? ==> |BeforeBreak(s).1.value| < |s|
  {
    if BreakLen(s) == 0 && s != "" {
      BeforeBreakShrinks(s[1..]);
    }
  }

  function FrameLines(raw: string): seq<string>
    decreases |raw|
  {
    BeforeBreakShrinks(raw);
    match BeforeBreak(raw)
    case (line, None) => [line]
    case (line, Some(rest)) => [line] + FrameLines(rest)
  }

  predicate JsSpace(c: char) {
    || '\t' <= c <= '\r' || c == ' ' || c == '\U{A0}' || c == '\U{FEFF}' || c == '\U{1680}'
    || '\U{2000}' <= c <= '\U{200A}'
    || c == '\U{2028}' || c == '\U{2029}' || c == '\U{202F}' || c == '\U{205F}' || c == '\U{3000}'
  }

  function TrimStart(s: string): string {
    if s != "" && JsSpace(s[0]) then TrimStart(s[1..]) else s
  }

  function TrimEnd(s: string): string {
    if s != "" && JsSpace(s[|s| - 1]) then TrimEnd(s[..|s| - 1]) else s
  }

  function Trim(s: string): string {
    TrimEnd(TrimStart(s))
  }

  /** The fields of a frame as its lines are read, later lines overriding earlier ones. */
  datatype Draft = Draft(id: Option<nat>, event: string, data: seq<string>)

  function ReadLine<J>(d: Draft, line: string, p: Platform<J>): Draft {
    if "id:" <= line then
      var candidate := p.number(Trim(line[3..]));
      if candidate.Some? && candidate.value > 0 then d.(id := candidate) else d
    else if "event:" <= line then d.(event := Trim(line[6..]))
    else if "data:" <= line then d.(data := d.data + [TrimStart(line[5..])])
    else d
  }

  function ReadLines<J>(d: Draft, lines: seq<string>, p: Platform<J>): Draft
    decreases |lines|
  {
    if lines == [] then d else ReadLines(ReadLine(d, lines[0], p), lines[1..], p)
  }

  function JoinLines(lines: seq<string>): string {
    if lines == [] then "" else if |lines| == 1 then lines[0] else lines[0] + "\n" + JoinLines(lines[1..])
  }

  /** A frame without data is ignored; data that is no JSON is an error. */
  function Finish<J>(d: Draft, p: Platform<J>): Result<Option<Frame<J>>, InvalidEvent> {
    if d.data == [] then Success(None)
    else
      match p.json(JoinLines(d.data))
      case None => Failure(InvalidEvent)
      case Some(data) => Success(Some(Frame(d.id, d.event, data)))
  }

  const NEW_DRAFT := Draft(None, "message", [])

  method ParseFrame<J>(raw: string, p: Platform<J>) returns (r: Result<Option<Frame<J>>, InvalidEvent>)
    ensures r == Finish(ReadLines(NEW_DRAFT, FrameLines(raw), p), p)
    ensures var lines := FrameLines(raw);
            && (r == Success(None) <==> DataIn(lines) == [])
            && (r.Failure? <==> DataIn(lines) != [] && p.json(JoinLines(DataIn(lines))).None?)
            && (r.Success? && r.value.Some? ==>
                  && p.json(JoinLines(DataIn(lines))) == Some(r.value.value.data)
                  && LastFieldsOf(Draft(r.value.value.id, r.value.value.event, []), lines, p, None, "message"))
  {
    hide FrameLines, Trim, TrimStart, IdIn, EventIn, DataIn, JoinLines;
    var lines := FrameLines(raw);
    LastFieldsWin(NEW_DRAFT, lines, p);
    assert [] + DataIn(lines) == DataIn(lines);
    var id: Option<nat>, event, data := None, "message", [];
    assert lines[0..] == lines;
    for i := 0 to |lines|
      invariant ReadLines(Draft(id, event, data), lines[i..], p) == ReadLines(NEW_DRAFT, lines, p)
    {
      assert lines[i..][1..] == lines[i + 1..];
      var line := lines[i];
      if "id:" <= line {
        var candidate := p.number(Trim(line[3..]));
        if candidate.Some? && candidate.value > 0 {
          id := candidate;
        }
      } else if "event:" <= line {
        event := Trim(line[6..]);
      } else if "data:" <= line {
        data := data + [TrimStart(line[5..])];
      }
    }
    if data == [] {
      return Success(None);
    }
    var value := p.json(JoinLines(data));
    if value.None? {
      return Failure(InvalidEvent);
    }
    return Success(Some(Frame(id, event, value.value)));
  }

  // ------------------------------------------------------------------- what the fields come to

  function IdIn<J>(line: string, p: Platform<J>): Option<nat> {
    if !("id:" <= line) then None
    else
      var candidate := p.number(Trim(line[3..]));
      if candidate.Some? && candidate.value > 0 then candidate else None
  }

  function EventIn(line: string): Option<string> {
    if "event:" <= line then Some(Trim(line[6..])) else None
  }

  function DataIn(lines: seq<string>): seq<string> {
    if lines == [] then []
    else (if "data:" <= lines[0] then [TrimStart(lines[0][5..])] else []) + DataIn(lines[1..])
  }

  predicate IsLastId<J>(lines: seq<string>, i: nat, p: Platform<J>) {
    i < |lines| && IdIn(lines[i], p).Some? && forall k :: i < k < |lines| ==> IdIn(lines[k], p).None?
  }

  predicate IsLastEvent(lines: seq<string>, i: nat) {
    i < |lines| && EventIn(lines[i]).Some? && forall k :: i < k < |lines| ==> EventIn(lines[k]).None?
  }

  /** The last usable id and the last event name of the lines, or else the ones given. */
  ghost predicate LastFieldsOf<J>(r: Draft, lines: seq<string>, p: Platform<J>, id: Option<nat>, event: string) {
    && ((forall i :: 0 <= i < |lines| ==> IdIn(lines[i], p).None?) ==> r.id == id)
    && (forall i: nat :: IsLastId(lines, i, p) ==> r.id == IdIn(lines[i], p))
    && ((forall i :: 0 <= i < |lines| ==> EventIn(lines[i]).None?) ==> r.event == event)
    && (forall i: nat :: IsLastEvent(lines, i) ==> r.event == EventIn(lines[i]).value)
  }

  lemma {:induction false} LastFieldsWin<J>(d: Draft, lines: seq<string>, p: Platform<J>)
    ensures LastFieldsOf(ReadLines(d, lines, p), lines, p, d.id, d.event)
    ensures ReadLines(d, lines, p).data == d.data + DataIn(lines)
    decreases |lines|
  {
    hide Trim, TrimStart, ReadLine, LastFieldsOf, IdIn, EventIn;
    if lines == [] {
      NoFields(d, p);
    } else {
      var next := ReadLine(d, lines[0], p);
      var r := ReadLines(next, lines[1..], p);
      LastFieldsWin(next, lines[1..], p);
      LineSetsOneField(d, lines[0], p);
      LastFieldsStep(d, lines, p, next, r);
    }
  }

  lemma NoFields<J>(d: Draft, p: Platform<J>)
    ensures LastFieldsOf(d, [], p, d.id, d.event)
  {
  }

  lemma LineSetsOneField<J>(d: Draft, line: string, p: Platform<J>)
    ensures var next := ReadLine(d, line, p);
            && next.id == (if IdIn(line, p).Some? then IdIn(line, p) else d.id)
            && next.event == (if EventIn(line).Some? then EventIn(line).value else d.event)
            && next.data == d.data + if "data:" <= line then [TrimStart(line[5..])] else []
  {
    hide Trim, TrimStart;
    assert "id:"[0] == 'i' && "event:"[0] == 'e' && "data:"[0] == 'd';
  }

  lemma LastFieldsStep<J>(d: Draft, lines: seq<string>, p: Platform<J>, next: Draft, r: Draft)
    requires lines != [] && LastFieldsOf(r, lines[1..], p, next.id, next.event)
    requires next.id == if IdIn(lines[0], p).Some? then IdIn(lines[0], p) else d.id
    requires next.event == if EventIn(lines[0]).Some? then EventIn(lines[0]).value else d.event
    ensures LastFieldsOf(r, lines, p, d.id, d.event)
  {
    hide IdIn, EventIn;
    var rest := lines[1..];
    assert forall i :: 0 <= i < |rest| ==> rest[i] == lines[i + 1];
    forall i: nat | IsLastId(lines, i, p)
      ensures r.id == IdIn(lines[i], p)
    {
      if i > 0 {
        assert IsLastId(rest, i - 1, p);
      }
    }
    forall i: nat | IsLastEvent(lines, i)
      ensures r.event == EventIn(lines[i]).value
    {
      if i > 0 {
        assert IsLastEvent(rest, i - 1);
      }
    }
  }

  // ----------------------------------------------------------------------------- the parser

  function Parse<J>(raw: string, p: Platform<J>): Result<Option<Frame<J>>, InvalidEvent> {
    Finish(ReadLines(NEW_DRAFT, FrameLines(raw), p), p)
  }

  /** The frames to deliver before the first invalid one, and whether there is an invalid one. */
  function Parsed<J>(raws: seq<string>, p: Platform<J>): (seq<Frame<J>>, bool) {
    if raws == [] then ([], false)
    else
      match Parse(raws[0], p)
      case Failure(_) => ([], true)
      case Success(first) =>
        var (more, invalid) := Parsed(raws[1..], p);
        ((if first.Some? then [first.value] else []) + more, invalid)
  }

  lemma {:induction false} ParsedAppend<J>(a: seq<string>, b: seq<string>, p: Platform<J>)
    ensures Parsed(a, p).1 ==> Parsed(a + b, p) == Parsed(a, p)
    ensures !Parsed(a, p).1 ==> Parsed(a + b, p) == (Parsed(a, p).0 + Parsed(b, p).0, Parsed(b, p).1)
  {
    hide Parse;
    if a == [] {
      assert a + b == b && [] + Parsed(b, p).0 == Parsed(b, p).0;
    } else {
      assert (a + b)[1..] == a[1..] + b;
      ParsedAppend(a[1..], b, p);
      if Parse(a[0], p).Success? {
        var first := Parse(a[0], p).value;
        var own := if first.Some? then [first.value] else [];
        var more := Parsed(a[1..], p).0;
        assert own + (more + Parsed(b, p).0) == (own + more) + Parsed(b, p).0;
      }
    }
  }

  class SSEParser<J(0)> {
    var buffer: string

    constructor ()
      ensures buffer == ""
    {
      buffer := "";
    }

    /** Delivers every frame the chunk completes; on an invalid one it throws, and the frames of the
        same call before it are lost. */
    method Feed(chunk: string, p: Platform<J>) returns (r: Result<seq<Frame<J>>, InvalidEvent>)
      modifies this
      ensures var (raws, rest) := Frames(old(buffer) + chunk);
              && (r.Failure? <==> Parsed(raws, p).1)
              && (r.Success? ==> r.value == Parsed(raws, p).0 && buffer == rest)
              && (r.Failure? ==> exists k :: StoppedAt(raws, rest, k, buffer, p))
    {
      hide CutFrame, Frames, Parsed, Delivering, ReadLines, FrameLines, Finish;
      buffer := buffer + chunk;
      ghost var whole := buffer;
      ghost var done: seq<string> := [];
      var frames := [];
      NothingTaken(whole, p);
      var cut := CutFrame(buffer);
      while cut.Some?
        invariant cut == CutFrame(buffer) && Delivering(whole, done, frames, buffer, p)
        decreases |buffer|
      {
        FrameTaken(whole, done, frames, buffer, p);
        ghost var before := buffer;
        buffer := cut.value.1;
        var parsed := ParseFrame(cut.value.0, p);
        if parsed.Failure? {
          StoppedHere(whole, done, frames, before, p);
          return Failure(InvalidEvent);
        }
        if parsed.value.Some? {
          frames := frames + [parsed.value.value];
        } else {
          frames := frames + [];
        }
        done := done + [cut.value.0];
        cut := CutFrame(buffer);
      }
      AllTaken(whole, done, frames, buffer, p);
      return Success(frames);
    }
  }

  lemma FirstFrame(s: string)
    requires CutFrame(s).Some?
    ensures var (raw, rest) := CutFrame(s).value; Frames(s) == ([raw] + Frames(rest).0, Frames(rest).1)
  {
  }

  lemma ParsedOne<J>(raw: string, p: Platform<J>)
    ensures Parsed([raw], p) == match Parse(raw, p)
                                case Failure(_) => ([], true)
                                case Success(first) => (if first.Some? then [first.value] else [], false)
  {
    hide Parse;
    assert [raw][1..] == [];
    if Parse(raw, p).Success? {
      var first := Parse(raw, p).value;
      var own := if first.Some? then [first.value] else [];
      assert own + [] == own;
    }
  }

  /** What is known between two frames of a call. */
  ghost predicate Delivering<J>(whole: string, done: seq<string>, frames: seq<Frame<J>>, buffer: string,
                                p: Platform<J>) {
    && Frames(whole) == (done + Frames(buffer).0, Frames(buffer).1)
    && Parsed(done, p) == (frames, false)
  }

  lemma FrameTaken<J>(whole: string, done: seq<string>, frames: seq<Frame<J>>, buffer: string, p: Platform<J>)
    requires Delivering(whole, done, frames, buffer, p) && CutFrame(buffer).Some?
    ensures var (raw, rest) := CutFrame(buffer).value;
            match Parse(raw, p)
            case Failure(_) => Parsed(Frames(whole).0, p).1
            case Success(first) =>
              Delivering(whole, done + [raw], frames + (if first.Some? then [first.value] else []), rest, p)
  {
    hide CutFrame, Parse, Parsed, Frames;
    var (raw, rest) := CutFrame(buffer).value;
    FirstFrame(buffer);
    assert done + ([raw] + Frames(rest).0) == (done + [raw]) + Frames(rest).0;
    ParsedAppend(done, [raw], p);
    ParsedAppend(done + [raw], Frames(rest).0, p);
    ParsedOne(raw, p);
  }

  /** After a throw at frame `k`, the buffer holds what follows that frame. */
  ghost predicate StoppedAt<J>(raws: seq<string>, rest: string, k: nat, buffer: string, p: Platform<J>) {
    k < |raws| && Parse(raws[k], p).Failure? && Frames(buffer) == (raws[k + 1..], rest)
  }

  lemma StoppedHere<J>(whole: string, done: seq<string>, frames: seq<Frame<J>>, buffer: string, p: Platform<J>)
    requires Delivering(whole, done, frames, buffer, p) && CutFrame(buffer).Some?
    requires Parse(CutFrame(buffer).value.0, p).Failure?
    ensures StoppedAt(Frames(whole).0, Frames(whole).1, |done|, CutFrame(buffer).value.1, p)
  {
    hide CutFrame, Parse, Parsed, Frames;
    var (raw, rest) := CutFrame(buffer).value;
    FirstFrame(buffer);
    var raws := done + ([raw] + Frames(rest).0);
    assert raws[|done|] == raw && raws[|done| + 1..] == Frames(rest).0;
  }

  lemma AllTaken<J>(whole: string, done: seq<string>, frames: seq<Frame<J>>, buffer: string, p: Platform<J>)
    requires Delivering(whole, done, frames, buffer, p) && CutFrame(buffer).None?
    ensures Frames(whole) == (done, buffer) && Parsed(Frames(whole).0, p) == (frames, false)
  {
    assert done + [] == done;
  }

  lemma NothingTaken<J>(whole: string, p: Platform<J>)
    ensures Delivering(whole, [], [], whole, p)
  {
    assert [] + Frames(whole).0 == Frames(whole).0;
  }

  // ------------------------------------------------------------------- what a stream delivers

  /** Frames a reader gets from the calls before the first that throws, and whether one throws. */
  function Delivered<J>(buffer: string, chunks: seq<string>, p: Platform<J>): (seq<Frame<J>>, bool)
    decreases |chunks|
  {
    if chunks == [] then ([], false)
    else
      var (raws, rest) := Frames(buffer + chunks[0]);
      var (frames, invalid) := Parsed(raws, p);
      if invalid then ([], true)
      else
        var (more, bad) := Delivered(rest, chunks[1..], p);
        (frames + more, bad)
  }

  lemma {:induction false} RestIsIncomplete(s: string)
    ensures CutFrame(Frames(s).1).None?
    decreases |s|
  {
    hide CutFrame;
    if CutFrame(s).Some? {
      RestIsIncomplete(CutFrame(s).value.1);
    }
  }

  /** However a stream is cut into chunks: the same frames if all are valid, and otherwise an error
      after some of the frames before the invalid one. */
  lemma {:induction false} DeliveredFromStream<J>(buffer: string, chunks: seq<string>, p: Platform<J>)
    requires CutFrame(buffer).None?
    ensures var (frames, invalid) := Parsed(Frames(buffer + Concat(chunks)).0, p);
            var (got, bad) := Delivered(buffer, chunks, p);
            bad == invalid && got <= frames && (!invalid ==> got == frames)
    decreases |chunks|
  {
    hide CutFrame, Parsed;
    if chunks == [] {
      assert buffer + Concat(chunks) == buffer;
      NothingParsed(p);
    } else {
      var first, later := chunks[0], chunks[1..];
      var (raws, rest) := Frames(buffer + first);
      assert buffer + Concat(chunks) == (buffer + first) + Concat(later);
      FramesInTwoParts(buffer + first, Concat(later));
      RestIsIncomplete(buffer + first);
      ParsedAppend(raws, Frames(rest + Concat(later)).0, p);
      DeliveredFromStream(rest, later, p);
    }
  }

  lemma NothingParsed<J>(p: Platform<J>)
    ensures Parsed<J>([], p) == ([], false)
  {
  }

  lemma DeliveredWhole<J>(stream: string, p: Platform<J>)
    ensures var (frames, invalid) := Parsed(Frames(stream).0, p);
            Delivered("", [stream], p) == (if invalid then [] else frames, invalid)
  {
    hide Parsed, Frames;
    assert "" + stream == stream && [stream][1..] == [];
    var (frames, invalid) := Parsed(Frames(stream).0, p);
    assert frames + [] == frames;
  }

  /** The stream cut after its first `k` frames. */
  lemma {:induction false} CutAfter(s: string, k: nat) returns (head: string, tail: string)
    requires k <= |Frames(s).0|
    ensures s == head + tail && Frames(head) == (Frames(s).0[..k], "") && Frames(tail).0 == Frames(s).0[k..]
    decreases |s|
  {
    hide CutFrame;
    if k == 0 {
      head, tail := "", s;
      NothingInEmpty();
    } else {
      var (raw, rest) := CutFrame(s).value;
      FirstFrame(s);
      FrameAlone(s);
      var own := s[..|s| - |rest|];
      var more;
      more, tail := CutAfter(rest, k - 1);
      head := own + more;
      CutIsStable(own, more);
      assert "" + more == more;
      FirstFrame(head);
      var later := Frames(rest).0;
      assert ([raw] + later)[..k] == [raw] + later[..k - 1] && ([raw] + later)[k..] == later[k - 1..];
      assert s == own + (more + tail);
    }
  }

  lemma NothingInEmpty()
    ensures Frames("") == ([], "")
  {
  }

  lemma {:induction false} FrameAlone(s: string)
    requires CutFrame(s).Some?
    ensures var (raw, rest) := CutFrame(s).value;
            var own := s[..|s| - |rest|];
            s == own + rest && CutFrame(own) == Some((raw, ""))
  {
    hide SeparatorLen;
    var rest := CutFrame(s).value.1;
    var own := s[..|s| - |rest|];
    if SeparatorLen(s) > 0 {
      assert own == s[..SeparatorLen(s)];
      SeparatorIsEnough(s);
    } else {
      FrameAlone(s[1..]);
      assert own[1..] == s[1..][..|s| - 1 - |rest|];
      if SeparatorLen(own) > 0 {
        SeparatorKept(own, rest);
      }
    }
  }

  lemma SeparatorIsEnough(s: string)
    requires SeparatorLen(s) > 0
    ensures SeparatorLen(s[..SeparatorLen(s)]) == SeparatorLen(s)
  {
    var first := BreakLen(s);
    BreakIsEnough(s, SeparatorLen(s));
    BreakIsEnough(s[first..], SeparatorLen(s) - first);
    assert s[..SeparatorLen(s)][first..] == s[first..][..SeparatorLen(s) - first];
  }

  lemma BreakIsEnough(s: string, n: nat)
    requires 0 < BreakLen(s) <= n <= |s|
    ensures BreakLen(s[..n]) == BreakLen(s)
  {
  }

  /** Whether the chunks matter: they do exactly when an invalid frame comes after one to deliver. */
  lemma ChunksMatterExactly<J>(stream: string, p: Platform<J>)
    ensures (forall chunks :: Concat(chunks) == stream ==> Delivered("", chunks, p) == Delivered("", [stream], p))
            <==> var (frames, invalid) := Parsed(Frames(stream).0, p); !invalid || frames == []
  {
    hide Frames, Delivered, Parsed, Concat, CutFrame;
    var (frames, invalid) := Parsed(Frames(stream).0, p);
    DeliveredWhole(stream, p);
    NoFrameInEmpty();
    if !invalid || frames == [] {
      forall chunks | Concat(chunks) == stream
        ensures Delivered("", chunks, p) == Delivered("", [stream], p)
      {
        DeliveredFromStream("", chunks, p);
        assert "" + stream == stream;
      }
    } else {
      var k := FirstInvalid(Frames(stream).0, p);
      var head, tail := CutAfter(stream, k);
      TwoChunks(head, tail);
      assert Concat([head, tail]) == stream;
      DeliveredInTwo(head, tail, Frames(stream).0, k, p);
    }
  }

  /** A frame of one data line. */
  function DataLine(c: char): string {
    "data:" + [c]
  }

  const GOOD := DataLine('1')
  const BAD := DataLine('x')

  /** A valid frame and then an invalid one: sent together nothing is delivered, sent apart the first is. */
  lemma LostFrameExample<J>(p: Platform<J>)
    requires p.json("1").Some? && p.json("x").None?
    ensures Delivered("", [(GOOD + "\n\n") + (BAD + "\n\n")], p) == ([], true)
    ensures Delivered("", [GOOD + "\n\n", BAD + "\n\n"], p) == ([Frame(None, "message", p.json("1").value)], true)
  {
    hide Frames, Delivered, Parsed, CutFrame, Parse, DataLine;
    var first, second := GOOD + "\n\n", BAD + "\n\n";
    DataLineIsFrame('1');
    DataLineIsFrame('x');
    DataLineParses('1', p);
    DataLineParses('x', p);
    ParsedOne(GOOD, p);
    ParsedOne(BAD, p);
    FramesInTwoParts(first, second);
    assert "" + second == second;
    ParsedAppend([GOOD], [BAD], p);
    var frames := [Frame(None, "message", p.json("1").value)];
    assert Parsed([GOOD], p) == (frames, false);
    assert frames + [] == frames;
    DeliveredWhole(first + second, p);
    DeliveredApart(first, second, frames, p);
  }

  lemma DeliveredApart<J>(first: string, second: string, frames: seq<Frame<J>>, p: Platform<J>)
    requires Frames(first).1 == "" && Parsed(Frames(first).0, p) == (frames, false)
    requires Parsed(Frames(second).0, p) == ([], true)
    ensures Delivered("", [first, second], p) == (frames, true)
  {
    hide Frames, Parsed;
    assert "" + first == first && "" + second == second;
    assert [first, second][1..] == [second];
    assert frames + [] == frames;
  }

  lemma DataLineIsFrame(c: char)
    requires c != '\r' && c != '\n'
    ensures Frames(DataLine(c) + "\n\n") == ([DataLine(c)], "")
  {
    hide CutFrame, Frames;
    EndsHere("");
    assert "\n\n" + "" == "\n\n";
    PassText(DataLine(c), "\n\n");
    assert DataLine(c) + "" == DataLine(c);
    FirstFrame(DataLine(c) + "\n\n");
    NoFrameInEmpty();
    NoFrames("");
    assert [DataLine(c)] + Frames("").0 == [DataLine(c)];
  }

  lemma NoFrames(s: string)
    requires CutFrame(s).None?
    ensures Frames(s) == ([], s)
  {
  }

  lemma DataLineParses<J>(c: char, p: Platform<J>)
    requires !JsSpace(c)
    ensures Parse(DataLine(c), p)
            == match p.json([c])
               case None => Failure(InvalidEvent)
               case Some(data) => Success(Some(Frame(None, "message", data)))
  {
    hide BeforeBreak, CutFrame;
    var line: string := DataLine(c);
    LastLine(line);
    assert line[0] == 'd' && line[5..] == [c] && TrimStart([c]) == [c];
    assert ReadLine(NEW_DRAFT, line, p) == NEW_DRAFT.(data := [[c]]);
    assert [line] == [line] + [] && [line][1..] == [];
    assert ReadLines(NEW_DRAFT, [line], p) == NEW_DRAFT.(data := [[c]]);
  }

  lemma NoFrameInEmpty()
    ensures CutFrame("").None?
  {
  }

  lemma TwoChunks(head: string, tail: string)
    ensures Concat([head, tail]) == head + tail
  {
    assert [head, tail][1..] == [tail] && [tail][1..] == [];
    assert Concat([tail]) == tail + "" == tail;
  }

  /** Where the first invalid frame is. */
  lemma {:induction false} FirstInvalid<J>(raws: seq<string>, p: Platform<J>) returns (k: nat)
    requires Parsed(raws, p).1
    ensures k < |raws| && Parsed(raws[..k], p) == (Parsed(raws, p).0, false)
  {
    hide Parse;
    if Parse(raws[0], p).Failure? {
      k := 0;
    } else {
      var later := FirstInvalid(raws[1..], p);
      k := later + 1;
      assert raws[..k][1..] == raws[1..][..later];
    }
  }

  lemma DeliveredInTwo<J>(head: string, tail: string, raws: seq<string>, k: nat, p: Platform<J>)
    requires k <= |raws| && Frames(head) == (raws[..k], "") && !Parsed(raws[..k], p).1
    ensures Parsed(raws[..k], p).0 <= Delivered("", [head, tail], p).0
  {
    hide Frames, Parsed;
    assert "" + head == head && [head, tail][1..] == [tail];
  }

  // ----------------------------------------------------------------------------- the encoder

  /** An event to send: its payload is the text of a JSON object. */
  datatype Event = Event(id: Option<nat>, name: string, payload: string)

  predicate NameChar(c: char) {
    'A' <= c <= 'Z' || 'a' <= c <= 'z' || '0' <= c <= '9' || c == '_' || c == '.' || c == '-'
  }

  predicate NoBreaks(s: string) {
    forall i :: 0 <= i < |s| ==> s[i] != '\n' && s[i] != '\r'
  }

  /** A compact JSON object: it has no raw line breaks, and its first character is a brace. */
  predicate JsonObjectText(s: string) {
    s != "" && s[0] == '{' && NoBreaks(s)
  }

  predicate Encodable(e: Event) {
    e.name != "" && (forall i :: 0 <= i < |e.name| ==> NameChar(e.name[i])) && (e.id.Some? ==> e.id.value >= 1)
  }

  function EventText(e: Event): string {
    "event: " + (e.name + ("\ndata: " + e.payload))
  }

  function RawText(e: Event): string {
    if e.id.None? then EventText(e) else "id: " + (Decimal(e.id.value) + ("\n" + EventText(e)))
  }

  function EncodeSseEvent(e: Event): Option<string> {
    if Encodable(e) then Some(RawText(e) + "\n\n") else None
  }

  /** Text without breaks stays in the frame it is in. */
  lemma {:induction false} PassText(text: string, rest: string)
    requires NoBreaks(text)
    ensures CutFrame(text + rest) == match CutFrame(rest)
                                     case None => None
                                     case Some((frame, after)) => Some((text + frame, after))
  {
    hide SeparatorLen;
    if text == "" {
      assert text + rest == rest;
      if CutFrame(rest).Some? {
        assert "" + CutFrame(rest).value.0 == CutFrame(rest).value.0;
      }
    } else {
      var s := text + rest;
      assert s[1..] == text[1..] + rest && s[0] == text[0];
      PassText(text[1..], rest);
      NoBreakHere(s);
      if CutFrame(rest).Some? {
        assert [text[0]] + (text[1..] + CutFrame(rest).value.0) == text + CutFrame(rest).value.0;
      }
    }
  }

  /** Text without breaks stays in the line it is in. */
  lemma {:induction false} PassTextInLine(text: string, rest: string)
    requires NoBreaks(text)
    ensures BeforeBreak(text + rest) == (text + BeforeBreak(rest).0, BeforeBreak(rest).1)
  {
    hide BreakLen;
    if text == "" {
      assert text + rest == rest;
      assert "" + BeforeBreak(rest).0 == BeforeBreak(rest).0;
    } else {
      var s := text + rest;
      assert s[1..] == text[1..] + rest && s[0] == text[0];
      PassTextInLine(text[1..], rest);
      NoBreakHere(s);
      assert [text[0]] + (text[1..] + BeforeBreak(rest).0) == text + BeforeBreak(rest).0;
    }
  }

  lemma NoBreakHere(s: string)
    requires s != "" && s[0] != '\n' && s[0] != '\r'
    ensures BreakLen(s) == 0 && SeparatorLen(s) == 0
  {
  }

  /** One line break followed by text is no separator. */
  lemma PassBreak(rest: string)
    requires rest != "" && rest[0] != '\n' && rest[0] != '\r'
    ensures CutFrame("\n" + rest) == match CutFrame(rest)
                                     case None => None
                                     case Some((frame, after)) => Some(("\n" + frame, after))
    ensures BeforeBreak("\n" + rest) == ("", Some(rest))
  {
    var s := "\n" + rest;
    assert s[1..] == rest;
    NoBreakHere(rest);
    assert BreakLen(s) == 1 && SeparatorLen(s) == 0;
  }

  lemma NamesHaveNoBreaks(e: Event)
    requires Encodable(e)
    ensures NoBreaks(e.name)
  {
  }

  /** An encoded event is one frame, whatever follows it. */
  lemma EventIsOneFrame(e: Event, t: string)
    requires Encodable(e) && JsonObjectText(e.payload)
    ensures CutFrame(EventText(e) + ("\n\n" + t)) == Some((EventText(e), t))
  {
    hide CutFrame, BeforeBreak;
    var data := "data: " + e.payload;
    var end := "\n\n" + t;
    EndsHere(t);
    PassText(data, end);
    assert data + "" == data;
    assert (data + end)[0] == 'd';
    PassBreak(data + end);
    NamesHaveNoBreaks(e);
    var head := "event: " + e.name;
    PassText(head, "\n" + (data + end));
    assert EventText(e) + end == head + ("\n" + (data + end));
    assert EventText(e) == head + ("\n" + data);
  }

  lemma EndsHere(t: string)
    ensures CutFrame("\n\n" + t) == Some(("", t))
  {
    var s := "\n\n" + t;
    assert s[1..] == "\n" + t && s[2..] == t;
    assert BreakLen(s) == 1 && BreakLen(s[1..]) == 1;
  }

  lemma RawIsOneFrame(e: Event, t: string)
    requires Encodable(e) && JsonObjectText(e.payload)
    ensures CutFrame(RawText(e) + ("\n\n" + t)) == Some((RawText(e), t))
  {
    hide CutFrame, BeforeBreak, EventText, Decimal;
    EventIsOneFrame(e, t);
    if e.id.Some? {
      var end := "\n\n" + t;
      var head := "id: " + Decimal(e.id.value);
      DigitsHaveNoBreaks(e.id.value);
      EventStarts(e);
      assert (EventText(e) + end)[0] == 'e';
      PassBreak(EventText(e) + end);
      PassText(head, "\n" + (EventText(e) + end));
      assert RawText(e) + end == head + ("\n" + (EventText(e) + end));
      assert RawText(e) == head + ("\n" + EventText(e));
    }
  }

  lemma EventStarts(e: Event)
    ensures EventText(e) != "" && EventText(e)[0] == 'e'
  {
  }

  lemma DigitsHaveNoBreaks(n: nat)
    ensures NoBreaks("id: " + Decimal(n))
  {
    DecimalIsDigits(n);
  }

  /** The lines that the reader makes of an event. */
  lemma EventLines(e: Event)
    requires Encodable(e) && JsonObjectText(e.payload)
    ensures FrameLines(EventText(e)) == ["event: " + e.name, "data: " + e.payload]
  {
    hide BeforeBreak, CutFrame;
    var head, data := "event: " + e.name, "data: " + e.payload;
    NamesHaveNoBreaks(e);
    assert EventText(e) == head + ("\n" + data);
    PassTextInLine(head, "\n" + data);
    PassBreak(data);
    assert head + "" == head;
    LastLine(data);
    assert FrameLines(data) == [data];
  }

  lemma LastLine(line: string)
    requires NoBreaks(line)
    ensures BeforeBreak(line) == (line, None)
  {
    assert line + "" == line;
    PassTextInLine(line, "");
  }

  lemma RawLines(e: Event)
    requires Encodable(e) && JsonObjectText(e.payload)
    ensures FrameLines(RawText(e))
            == (if e.id.None? then [] else ["id: " + Decimal(e.id.value)]) + ["event: " + e.name, "data: " + e.payload]
  {
    hide BeforeBreak, CutFrame, EventText, Decimal;
    EventLines(e);
    if e.id.Some? {
      var head := "id: " + Decimal(e.id.value);
      DigitsHaveNoBreaks(e.id.value);
      EventStarts(e);
      assert RawText(e) == head + ("\n" + EventText(e));
      PassTextInLine(head, "\n" + EventText(e));
      PassBreak(EventText(e));
      assert head + "" == head;
      assert FrameLines(RawText(e)) == [head] + FrameLines(EventText(e));
    }
  }

  // ------------------------------------------------------------------------------ round trip

  lemma TrimKeeps(s: string)
    requires s != "" && !JsSpace(s[0]) && !JsSpace(s[|s| - 1])
    ensures TrimStart(" " + s) == s && Trim(" " + s) == s
  {
    assert (" " + s)[1..] == s;
    assert TrimStart(s) == s;
  }

  /** The platform reads decimal numerals and the encoder's payloads. */
  ghost predicate ReadsEncoded<J>(p: Platform<J>, e: Event) {
    p.json(e.payload).Some? && (e.id.Some? ==> p.number(Decimal(e.id.value)) == e.id)
  }

  function Decoded<J>(e: Event, p: Platform<J>): Frame<J>
    requires p.json(e.payload).Some?
  {
    Frame(e.id, e.name, p.json(e.payload).value)
  }

  lemma EventLineReads<J>(d: Draft, name: string, p: Platform<J>)
    requires name != "" && forall i :: 0 <= i < |name| ==> NameChar(name[i])
    ensures ReadLine(d, "event: " + name, p) == d.(event := name)
  {
    var line := "event: " + name;
    assert line[0] == 'e' && line[6..] == " " + name;
    TrimKeeps(name);
  }

  lemma DataLineReads<J>(d: Draft, payload: string, p: Platform<J>)
    requires JsonObjectText(payload)
    ensures ReadLine(d, "data: " + payload, p) == d.(data := d.data + [payload])
  {
    var line := "data: " + payload;
    assert line[0] == 'd' && line[5..] == " " + payload && (" " + payload)[1..] == payload;
    assert TrimStart(payload) == payload;
  }

  lemma IdLineReads<J>(d: Draft, id: nat, p: Platform<J>)
    requires id >= 1 && p.number(Decimal(id)) == Some(id)
    ensures ReadLine(d, "id: " + Decimal(id), p) == d.(id := Some(id))
  {
    var line := "id: " + Decimal(id);
    assert line[3..] == " " + Decimal(id);
    DecimalIsDigits(id);
    TrimKeeps(Decimal(id));
  }

  /** A frame of the encoder reads back as the event it was made from. */
  lemma EncodedReadsBack<J>(e: Event, p: Platform<J>)
    requires Encodable(e) && JsonObjectText(e.payload) && ReadsEncoded(p, e)
    ensures Parse(RawText(e), p) == Success(Some(Decoded(e, p)))
  {
    hide FrameLines, RawText, ReadLine, Decimal;
    RawLines(e);
    var lines := ["event: " + e.name, "data: " + e.payload];
    var d := NEW_DRAFT;
    if e.id.Some? {
      IdLineReads(d, e.id.value, p);
      var all := ["id: " + Decimal(e.id.value)] + lines;
      assert all[1..] == lines;
      d := d.(id := e.id);
      assert ReadLines(NEW_DRAFT, all, p) == ReadLines(d, lines, p);
    } else {
      assert [] + lines == lines;
    }
    EventLineReads(d, e.name, p);
    DataLineReads(d.(event := e.name), e.payload, p);
    var rest := ["data: " + e.payload];
    assert lines[1..] == rest && rest[1..] == [];
    var named := d.(event := e.name);
    assert ReadLines(d, lines, p) == ReadLines(named, rest, p);
    assert ReadLines(named, rest, p) == named.(data := [] + [e.payload]);
    assert JoinLines([] + [e.payload]) == e.payload;
  }

  /** What the server sends: an event it refuses to encode is not sent. */
  function EncodedStream(events: seq<Event>): string {
    if events == [] then ""
    else
      var later := EncodedStream(events[1..]);
      match EncodeSseEvent(events[0])
      case None => later
      case Some(text) => text + later
  }

  ghost function DecodedAll<J>(events: seq<Event>, p: Platform<J>): seq<Frame<J>>
    requires forall e :: e in events ==> ReadsEncoded(p, e)
  {
    if events == [] then []
    else
      assert events[0] in events && ReadsEncoded(p, events[0]);
      [Decoded(events[0], p)] + DecodedAll(events[1..], p)
  }

  lemma {:induction false} StreamReadsBack<J>(events: seq<Event>, p: Platform<J>)
    requires forall e :: e in events ==> Encodable(e) && JsonObjectText(e.payload) && ReadsEncoded(p, e)
    ensures Parsed(Frames(EncodedStream(events)).0, p) == (DecodedAll(events, p), false)
  {
    hide CutFrame, RawText, Parse, Encodable, JsonObjectText;
    if events == [] {
      NothingInEmpty();
    } else {
      var e, later := events[0], EncodedStream(events[1..]);
      assert e in events;
      RawIsOneFrame(e, later);
      assert EncodedStream(events) == RawText(e) + ("\n\n" + later);
      FirstFrame(EncodedStream(events));
      EncodedReadsBack(e, p);
      StreamReadsBack(events[1..], p);
      assert Frames(EncodedStream(events)).0[1..] == Frames(later).0;
    }
  }

  /** What the server encodes is what the browser delivers, however the stream is cut on the way. */
  lemma EventsArrive<J>(events: seq<Event>, chunks: seq<string>, p: Platform<J>)
    requires forall e :: e in events ==> Encodable(e) && JsonObjectText(e.payload) && ReadsEncoded(p, e)
    requires Concat(chunks) == EncodedStream(events)
    ensures Delivered("", chunks, p) == (DecodedAll(events, p), false)
  {
    hide Frames, Parsed, Delivered, EncodedStream, DecodedAll, CutFrame, Concat;
    StreamReadsBack(events, p);
    NoFrameInEmpty();
    DeliveredFromStream("", chunks, p);
    assert "" + Concat(chunks) == EncodedStream(events);
  }
}
