/** The prior steps shown to the model: newest first within a character budget, printed in order. */
module History {
  import opened Decimals
  import opened Json
  import opened Lines
  import opened Wrappers

  /** What a step prints: a tool interaction, or trusted workflow feedback beside its evidence. */
  datatype Shown = Interaction(payload: Json) | Feedback(trusted: Json, evidence: Json)

  /** `dump` is the whole step as JSON; what is shown holds no string longer than the dump does. */
  datatype Step = Step(iteration: nat, action: string, toolName: Option<string>, shown: Shown, dump: Json)
  {
    predicate Valid() {
      match shown
      case Interaction(payload) => Longest(payload) <= Longest(dump)
      case Feedback(trusted, evidence) => Longest(trusted) <= Longest(dump) && Longest(evidence) <= Longest(dump)
    }
  }

  // -------------------------------------------------------------------------------- blocks

  function Bounded(v: Json, limit: Option<nat>): Json {
    match limit
    case None => v
    case Some(n) => Truncate(v, n)
  }

  function Block(step: Step, limit: Option<nat>): (block: string)
    ensures block != ""
  {
    match step.shown
    case Interaction(payload) =>
      "<tool_interaction" + " trust=\"untrusted-data\">\n" + Render(Bounded(payload, limit))
      + "\n" + "</tool_interaction>"
    case Feedback(trusted, evidence) =>
      "<workflow_feedback" + " trust=\"trusted-workflow-instruction\">\n" + Render(Bounded(trusted, limit))
      + "\n" + "</workflow_feedback>" + "\n"
      + "<workflow_evidence" + " trust=\"untrusted-data\">\n" + Render(Bounded(evidence, limit))
      + "\n" + "</workflow_evidence>"
  }

  function OmittedBlock(step: Step, omittedChars: nat): (block: string)
    ensures block != ""
  {
    var name := if step.toolName.Some? then Fields("tool_name", Text(step.toolName.value), EndFields) else EndFields;
    var payload := Object(Fields("action", Text(step.action),
                          Fields("iteration", Atom(Decimal(step.iteration)),
                          Fields("omitted_chars", Atom(Decimal(omittedChars)), name))));
    "<omitted_interaction" + " trust=\"untrusted-data\">\n" + Render(payload) + "\n" + "</omitted_interaction>"
  }

  predicate Fits(step: Step, limit: nat, maxChars: int) {
    |Block(step, Some(limit))| <= maxChars
  }

  /** A larger limit never gives a shorter block. */
  lemma BlockMonotone(step: Step, low: nat, high: nat)
    requires low <= high
    ensures |Block(step, Some(low))| <= |Block(step, Some(high))|
  {
    hide Render, Truncate;
    match step.shown
    case Interaction(payload) =>
      RenderMonotone(payload, low, high);
    case Feedback(trusted, evidence) =>
      RenderMonotone(trusted, low, high);
      RenderMonotone(evidence, low, high);
  }

  /** From the longest string on, nothing is cut. */
  lemma BlockUncut(step: Step, limit: nat)
    requires step.Valid() && Longest(step.dump) <= limit
    ensures Block(step, Some(limit)) == Block(step, None)
  {
    hide Render, Truncate, Longest;
    match step.shown
    case Interaction(payload) =>
      TruncateBeyondLongest(payload, limit);
    case Feedback(trusted, evidence) =>
      TruncateBeyondLongest(trusted, limit);
      TruncateBeyondLongest(evidence, limit);
  }

  // ------------------------------------------------------------------------- binary search

  /** `limit` is the most generous limit whose block fits, among all limits. */
  ghost predicate IsLargestFit(step: Step, limit: nat, maxChars: int) {
    Fits(step, limit, maxChars) && forall other: nat :: other > limit ==> !Fits(step, other, maxChars)
  }

  lemma UnfitAbove(step: Step, limit: nat, maxChars: int)
    requires !Fits(step, limit, maxChars)
    ensures forall other: nat :: other >= limit ==> !Fits(step, other, maxChars)
  {
    forall other: nat | other >= limit
      ensures !Fits(step, other, maxChars)
    {
      BlockMonotone(step, limit, other);
    }
  }

  /** The binary search: the best fitting block, and none exactly when even an empty one is too long. */
  method TruncatedStepBlock(step: Step, maxChars: int) returns (best: Option<string>, limit: nat)
    requires step.Valid() && |Block(step, None)| > maxChars
    ensures best.None? <==> !Fits(step, 0, maxChars)
    ensures best.Some? ==> IsLargestFit(step, limit, maxChars) && best.value == Block(step, Some(limit))
  {
    hide Block, Longest;
    var low: nat, high: int := 0, Longest(step.dump);
    BlockUncut(step, high);
    UnfitAbove(step, high, maxChars);
    best, limit := None, 0;
    while low <= high
      invariant 0 <= low <= high + 1
      invariant forall other: nat :: other > high ==> !Fits(step, other, maxChars)
      invariant best.None? ==> low == 0
      invariant best.Some? ==> limit + 1 == low && Fits(step, limit, maxChars) && best.value == Block(step, Some(limit))
    {
      var middle: nat := (low + high) / 2;
      var candidate := Block(step, Some(middle));
      if |candidate| <= maxChars {
        best, limit := Some(candidate), middle;
        low := middle + 1;
      } else {
        UnfitAbove(step, middle, maxChars);
        high := middle - 1;
      }
    }
    if best.Some? {
      BlockMonotone(step, 0, limit);
    }
  }

  // ------------------------------------------------------------------------ the whole history

  /** How one step is represented. */
  datatype Entry = Full | CutAt(limit: nat) | Omitted | Skipped

  function EntryText(step: Step, entry: Entry): (text: string)
    requires entry != Skipped
    ensures text != ""
  {
    match entry
    case Full => Block(step, None)
    case CutAt(limit) => Block(step, Some(limit))
    case Omitted => OmittedBlock(step, |Block(step, None)|)
  }

  /** The blocks shown, in the order of the steps. */
  function ShownBlocks(steps: seq<Step>, entries: seq<Entry>): seq<string>
    requires |steps| == |entries|
  {
    if steps == [] then []
    else if entries[0] == Skipped then ShownBlocks(steps[1..], entries[1..])
    else [EntryText(steps[0], entries[0])] + ShownBlocks(steps[1..], entries[1..])
  }

  function OlderChars(older: seq<Step>): nat {
    if older == [] then 0 else |Block(older[0], None)| + 2 + OlderChars(older[1..])
  }

  function Min(a: int, b: int): int {
    if a < b then a else b
  }

  /** What a step too long for `remaining` becomes, if it is not the newest. */
  predicate OlderChoice(step: Step, entry: Entry, remaining: int) {
    var block, omitted := Block(step, None), OmittedBlock(step, |Block(step, None)|);
    match entry
    case Full => |block| <= remaining
    case CutAt(_) => false
    case Omitted => |block| > remaining && |omitted| <= remaining
    case Skipped => |block| > remaining && |omitted| > remaining
  }

  /** The newest step is cut as little as the budget less the share of older steps allows. */
  ghost predicate NewestChoice(step: Step, entry: Entry, budget: int, reserve: int) {
    var block, omitted := Block(step, None), OmittedBlock(step, |Block(step, None)|);
    match entry
    case Full => |block| <= budget
    case CutAt(limit) => |block| > budget && IsLargestFit(step, limit, budget - reserve)
    case Omitted => |block| > budget && !Fits(step, 0, budget - reserve) && |omitted| <= budget
    case Skipped => |block| > budget && !Fits(step, 0, budget - reserve) && |omitted| > budget
  }

  lemma SkippedOnlyIfNothingFits(step: Step, entry: Entry, budget: int, reserve: int)
    requires NewestChoice(step, entry, budget, reserve) && entry != Skipped
    ensures !NewestChoice(step, Skipped, budget, reserve)
  {
    hide Block, OmittedBlock;
    if entry.CutAt? {
      BlockMonotone(step, 0, entry.limit);
    }
  }

  /** Every older step is chosen greedily, newest first, from what later ones left over. */
  ghost predicate Chosen(steps: seq<Step>, entries: seq<Entry>, budget: int, reserve: int)
    requires |steps| == |entries| > 0
  {
    if |steps| == 1 then NewestChoice(steps[0], entries[0], budget, reserve)
    else
      && Chosen(steps[1..], entries[1..], budget, reserve)
      && OlderChoice(steps[0], entries[0], budget - |Join(ShownBlocks(steps[1..], entries[1..]))| - 2)
  }

  function Reserve(steps: seq<Step>, budget: int): int
    requires steps != []
  {
    Min(OlderChars(steps[..|steps| - 1]), budget / 2)
  }

  /** What the history promises: nothing at all exactly when even the newest step's marker is too
      long, and otherwise every step's greedy choice, in order, within the budget. */
  ghost predicate IsHistory(text: string, entries: seq<Entry>, steps: seq<Step>, budget: int) {
    if steps == [] then text == ""
    else
      var newest, reserve := |steps| - 1, Reserve(steps, budget);
      if NewestChoice(steps[newest], Skipped, budget, reserve) then text == ""
      else
        && |entries| == |steps| && Chosen(steps, entries, budget, reserve)
        && entries[newest] != Skipped
        && text == Join(ShownBlocks(steps, entries)) && 0 < |text| <= budget
  }

  lemma ShownStep(steps: seq<Step>, entries: seq<Entry>, entry: Entry, i: nat)
    requires i < |steps| && |entries| == |steps| - i - 1
    ensures ShownBlocks(steps[i..], [entry] + entries)
            == (if entry == Skipped then [] else [EntryText(steps[i], entry)]) + ShownBlocks(steps[i + 1..], entries)
  {
    assert steps[i..][1..] == steps[i + 1..];
    assert ([entry] + entries)[1..] == entries;
  }

  lemma ChosenStep(steps: seq<Step>, entries: seq<Entry>, entry: Entry, i: nat, budget: int, reserve: int)
    requires i < |steps| - 1 && |entries| == |steps| - i - 1
    requires Chosen(steps[i + 1..], entries, budget, reserve)
    requires OlderChoice(steps[i], entry, budget - |Join(ShownBlocks(steps[i + 1..], entries))| - 2)
    ensures Chosen(steps[i..], [entry] + entries, budget, reserve)
  {
    assert steps[i..][1..] == steps[i + 1..];
    assert ([entry] + entries)[1..] == entries;
  }

  function Reversed(blocks: seq<string>): seq<string> {
    if blocks == [] then [] else Reversed(blocks[1..]) + [blocks[0]]
  }

  lemma {:induction false} ReversedSnoc(blocks: seq<string>, block: string)
    ensures Reversed(blocks + [block]) == [block] + Reversed(blocks)
  {
    if blocks == [] {
      assert ([block])[1..] == [];
    } else {
      assert (blocks + [block])[1..] == blocks[1..] + [block];
      ReversedSnoc(blocks[1..], block);
    }
  }

  /** A step older than the newest. */
  method OlderEntry(step: Step, remaining: int) returns (candidate: Option<string>, entry: Entry)
    ensures OlderChoice(step, entry, remaining)
    ensures candidate.None? <==> entry == Skipped
    ensures candidate.Some? ==> candidate.value == EntryText(step, entry) && |candidate.value| <= remaining
  {
    var block := Block(step, None);
    candidate, entry := Some(block), Full;
    if |block| > remaining {
      var omitted := OmittedBlock(step, |block|);
      candidate, entry := if |omitted| <= remaining then Some(omitted) else None,
                          if |omitted| <= remaining then Omitted else Skipped;
    }
  }

  method NewestEntry(step: Step, budget: int, reserve: int) returns (candidate: Option<string>, entry: Entry)
    requires step.Valid() && (reserve >= 0 || budget - reserve <= 0)
    ensures NewestChoice(step, entry, budget, reserve)
    ensures candidate.None? <==> entry == Skipped
    ensures candidate.Some? ==> candidate.value == EntryText(step, entry) && |candidate.value| <= budget
  {
    hide Block, OmittedBlock, Longest;
    var block := Block(step, None);
    candidate, entry := Some(block), Full;
    if |block| > budget {
      var limit;
      candidate, limit := TruncatedStepBlock(step, budget - reserve);
      entry := CutAt(limit);
      if candidate.None? {
        var omitted := OmittedBlock(step, |block|);
        candidate, entry := if |omitted| <= budget then Some(omitted) else None,
                            if |omitted| <= budget then Omitted else Skipped;
      }
    }
  }

  /** The loop's state once the steps from `index` on have been represented. */
  ghost predicate Represented(steps: seq<Step>, entries: seq<Entry>, index: nat, blocks: seq<string>, usedChars: int,
                              budget: int, reserve: int)
    requires index < |steps|
  {
    && |entries| == |steps| - index && Chosen(steps[index..], entries, budget, reserve)
    && entries[|entries| - 1] != Skipped
    && blocks != [] && Reversed(blocks) == ShownBlocks(steps[index..], entries)
    && usedChars == |Join(Reversed(blocks))| && 0 < usedChars <= budget
  }

  lemma NewestRepresented(steps: seq<Step>, entry: Entry, budget: int, reserve: int)
    requires steps != [] && entry != Skipped
    requires NewestChoice(steps[|steps| - 1], entry, budget, reserve)
    requires |EntryText(steps[|steps| - 1], entry)| <= budget
    ensures var text := EntryText(steps[|steps| - 1], entry);
            Represented(steps, [entry], |steps| - 1, [text], |text|, budget, reserve)
  {
    hide Block, OmittedBlock, NewestChoice, EntryText;
    var index := |steps| - 1;
    var text := EntryText(steps[index], entry);
    assert steps[index..] == [steps[index]];
    ShownStep(steps, [], entry, index);
    assert steps[index + 1..] == [] && [entry] + [] == [entry];
    assert Reversed([text]) == [text];
  }

  lemma OlderRepresented(steps: seq<Step>, entries: seq<Entry>, entry: Entry, index: nat, blocks: seq<string>,
                         usedChars: int, budget: int, reserve: int)
    requires 0 < index < |steps| && Represented(steps, entries, index, blocks, usedChars, budget, reserve)
    requires OlderChoice(steps[index - 1], entry, budget - usedChars - 2)
    ensures entry == Skipped ==>
              Represented(steps, [entry] + entries, index - 1, blocks, usedChars, budget, reserve)
    ensures entry != Skipped && |EntryText(steps[index - 1], entry)| <= budget - usedChars - 2 ==>
              var text := EntryText(steps[index - 1], entry);
              Represented(steps, [entry] + entries, index - 1, blocks + [text], usedChars + 2 + |text|, budget, reserve)
  {
    hide Block, OmittedBlock, OlderChoice, EntryText, NewestChoice;
    ChosenStep(steps, entries, entry, index - 1, budget, reserve);
    ShownStep(steps, entries, entry, index - 1);
    if entry != Skipped {
      var text := EntryText(steps[index - 1], entry);
      ReversedSnoc(blocks, text);
      JoinMore(text, Reversed(blocks));
    }
  }

  /** The whole history within the budget. */
  method BoundedHistory(steps: seq<Step>, budget: int) returns (text: string, entries: seq<Entry>)
    requires forall i :: 0 <= i < |steps| ==> steps[i].Valid()
    ensures IsHistory(text, entries, steps, budget)
  {
    hide Block, OmittedBlock, EntryText, NewestChoice, OlderChoice, OlderChars;
    entries := [];
    if steps == [] {
      return "", entries;
    }
    var newest := |steps| - 1;
    var reserve := Reserve(steps, budget);
    var candidate, entry := NewestEntry(steps[newest], budget, reserve);
    if candidate.None? {
      return "", entries;
    }
    var blocks, usedChars := [candidate.value], |candidate.value|;
    NewestRepresented(steps, entry, budget, reserve);
    entries := [entry];
    var index := newest;
    while index > 0
      invariant 0 <= index <= newest
      invariant Represented(steps, entries, index, blocks, usedChars, budget, reserve)
    {
      var older, choice := OlderEntry(steps[index - 1], budget - usedChars - 2);
      OlderRepresented(steps, entries, choice, index, blocks, usedChars, budget, reserve);
      if older.Some? {
        blocks := blocks + [older.value];
        usedChars := usedChars + 2 + |older.value|;
      }
      entries := [choice] + entries;
      index := index - 1;
    }
    assert steps[0..] == steps;
    SkippedOnlyIfNothingFits(steps[newest], entry, budget, reserve);
    text := Join(Reversed(blocks));
  }

  // ------------------------------------------------------------------ what a reader is promised

  /** When the newest step leaves the older ones room, none of them is abbreviated. */
  lemma {:induction false} OlderAllFull(steps: seq<Step>, entries: seq<Entry>, budget: int, reserve: int, spare: int)
    requires |steps| == |entries| > 0 && Chosen(steps, entries, budget, reserve)
    requires entries[|steps| - 1] != Skipped
    requires |EntryText(steps[|steps| - 1], entries[|steps| - 1])| <= budget - spare
    requires OlderChars(steps[..|steps| - 1]) <= spare
    ensures forall i :: 0 <= i < |steps| - 1 ==> entries[i] == Full
    ensures |Join(ShownBlocks(steps, entries))|
            == |EntryText(steps[|steps| - 1], entries[|steps| - 1])| + OlderChars(steps[..|steps| - 1])
  {
    hide Block, OmittedBlock, NewestChoice, EntryText;
    var rest, later := steps[1..], entries[1..];
    if |steps| == 1 {
      assert ShownBlocks(rest, later) == [];
    } else {
      assert steps[..|steps| - 1][1..] == rest[..|rest| - 1];
      OlderAllFull(rest, later, budget, reserve, spare);
      FullIfItFits(steps[0], entries[0], budget - |Join(ShownBlocks(rest, later))| - 2);
      assert ShownBlocks(rest, later) != [];
      JoinMore(Block(steps[0], None), ShownBlocks(rest, later));
    }
  }

  lemma FullIfItFits(step: Step, entry: Entry, remaining: int)
    requires OlderChoice(step, entry, remaining) && |Block(step, None)| <= remaining
    ensures entry == Full && EntryText(step, entry) == Block(step, None)
  {
    hide Block, OmittedBlock;
  }

  /** A history that fits is shown whole. */
  lemma FittingHistoryIsWhole(text: string, entries: seq<Entry>, steps: seq<Step>, budget: int)
    requires steps != [] && IsHistory(text, entries, steps, budget)
    requires |Block(steps[|steps| - 1], None)| + OlderChars(steps[..|steps| - 1]) <= budget
    ensures |entries| == |steps| && forall i :: 0 <= i < |steps| ==> entries[i] == Full
  {
    hide Block, OmittedBlock, OlderChars;
    var newest := |steps| - 1;
    var spare := OlderChars(steps[..newest]);
    if entries != [] {
      ChosenNewest(steps, entries, budget, Reserve(steps, budget));
    }
    OlderAllFull(steps, entries, budget, Reserve(steps, budget), spare);
  }

  lemma {:induction false} ChosenNewest(steps: seq<Step>, entries: seq<Entry>, budget: int, reserve: int)
    requires |steps| == |entries| > 0 && Chosen(steps, entries, budget, reserve)
    ensures NewestChoice(steps[|steps| - 1], entries[|steps| - 1], budget, reserve)
  {
    hide NewestChoice, OlderChoice;
    if |steps| > 1 {
      ChosenNewest(steps[1..], entries[1..], budget, reserve);
    }
  }

  /** An oversized newest step is cut so that older steps within half the budget all stay whole. */
  lemma OversizedStepHidesNothing(text: string, entries: seq<Entry>, steps: seq<Step>, budget: int)
    requires steps != [] && IsHistory(text, entries, steps, budget) && text != ""
    requires entries[|steps| - 1].CutAt? && OlderChars(steps[..|steps| - 1]) <= budget / 2
    ensures forall i :: 0 <= i < |steps| - 1 ==> entries[i] == Full
  {
    hide Block, OmittedBlock, OlderChars;
    var reserve := Reserve(steps, budget);
    ChosenNewest(steps, entries, budget, reserve);
    OlderAllFull(steps, entries, budget, reserve, reserve);
  }
}
