/** Cutting a stream of server-sent events into frames, whatever chunks it arrives in. */
module SseFrames {
  import opened Wrappers

  /** A line break, possibly preceded by a carriage return: its length, or 0 if none starts here. */
  function BreakLen(s: string): (n: nat)
    ensures n <= |s|
  {
    if "\n" <= s then 1 else if "\r\n" <= s then 2 else 0
  }

  /** Two line breaks in a row, which end a frame. */
  function SeparatorLen(s: string): (n: nat)
    ensures n <= |s|
  {
    var first := BreakLen(s);
    var second := BreakLen(s[first..]);
    if first > 0 && second > 0 then first + second else 0
  }

  /** The text before the first separator and the text after it. */
  function CutFrame(s: string): (cut: Option<(string, string)>)
    ensures cut.Some? ==> |cut.value.1| < |s|
  {
    if SeparatorLen(s) > 0 then Some(("", s[SeparatorLen(s)..]))
    else if s == "" then None
    else
      var cut :- CutFrame(s[1..]);
      Some(([s[0]] + cut.0, cut.1))
  }

  /** Every complete frame, and the incomplete rest. */
  function Frames(s: string): (seq<string>, string)
    decreases |s|
  {
    match CutFrame(s)
    case None => ([], s)
    case Some((frame, rest)) =>
      var (more, last) := Frames(rest);
      ([frame] + more, last)
  }

  // -------------------------------------------------------------- chunks do not matter

  function Newlines(s: string): nat {
    if s == "" then 0 else (if s[0] == '\n' then 1 else 0) + Newlines(s[1..])
  }

  lemma {:induction false} CutTakesTwoNewlines(s: string)
    requires CutFrame(s).Some?
    ensures Newlines(s) >= 2
  {
    if SeparatorLen(s) > 0 {
      SeparatorHasTwo(s);
    } else {
      CutTakesTwoNewlines(s[1..]);
    }
  }

  lemma SeparatorHasTwo(s: string)
    requires SeparatorLen(s) > 0
    ensures Newlines(s) >= 2
  {
    var first := BreakLen(s);
    NewlineAtBreak(s);
    NewlineAtBreak(s[first..]);
  }

  lemma NewlineAtBreak(s: string)
    requires BreakLen(s) > 0
    ensures Newlines(s) == 1 + Newlines(s[BreakLen(s)..])
  {
    if !("\n" <= s) {
      assert s[1..][1..] == s[2..];
      assert s[1] == "\r\n"[1];
    }
  }

  /** A separator that only more input completes has at most one newline so far. */
  lemma UnfinishedSeparator(s: string, t: string)
    requires SeparatorLen(s) == 0 && SeparatorLen(s + t) > 0
    ensures Newlines(s) <= 1
  {
    if BreakLen(s) == 0 {
      BreakAcross(s, t);
    } else {
      var first := BreakLen(s);
      BreakKept(s, t);
      assert (s + t)[first..] == s[first..] + t;
      BreakAcross(s[first..], t);
      NewlineAtBreak(s);
    }
  }

  lemma BreakKept(s: string, t: string)
    requires BreakLen(s) > 0
    ensures BreakLen(s + t) == BreakLen(s)
  {
    assert (s + t)[0] == s[0];
    assert |s| > 1 ==> (s + t)[1] == s[1];
  }

  lemma BreakAcross(s: string, t: string)
    requires BreakLen(s) == 0 && BreakLen(s + t) > 0
    ensures Newlines(s) == 0
  {
    assert forall i :: 0 <= i < |s| ==> (s + t)[i] == s[i];
  }

  lemma SeparatorKept(s: string, t: string)
    requires SeparatorLen(s) > 0
    ensures SeparatorLen(s + t) == SeparatorLen(s)
    ensures (s + t)[SeparatorLen(s)..] == s[SeparatorLen(s)..] + t
  {
    var first := BreakLen(s);
    BreakKept(s, t);
    assert (s + t)[first..] == s[first..] + t;
    BreakKept(s[first..], t);
  }

  /** A frame found in part of the stream is the frame found in all of it. */
  lemma {:induction false} CutIsStable(s: string, t: string)
    requires CutFrame(s).Some?
    ensures CutFrame(s + t) == Some((CutFrame(s).value.0, CutFrame(s).value.1 + t))
  {
    hide SeparatorLen;
    if SeparatorLen(s) > 0 {
      SeparatorKept(s, t);
    } else {
      CutIsStable(s[1..], t);
      assert (s + t)[1..] == s[1..] + t;
      if SeparatorLen(s + t) > 0 {
        UnfinishedSeparator(s, t);
        CutTakesTwoNewlines(s[1..]);
      }
    }
  }

  /** Feeding a stream in two parts finds the same frames as feeding it whole. */
  lemma {:induction false} FramesInTwoParts(s: string, t: string)
    ensures var (before, rest) := Frames(s);
            var (after, last) := Frames(rest + t);
            Frames(s + t) == (before + after, last)
    decreases |s|
  {
    hide CutFrame;
    if CutFrame(s).Some? {
      var (frame, rest) := CutFrame(s).value;
      CutIsStable(s, t);
      FramesInTwoParts(rest, t);
      var (before, last) := Frames(rest);
      assert [frame] + (before + Frames(last + t).0) == ([frame] + before) + Frames(last + t).0;
    } else {
      assert [] + Frames(s + t).0 == Frames(s + t).0;
    }
  }
}
