/** Reading the prior steps back out of a prompt: which payload stands under which trust label. */
module HistoryReader {
  import opened Decimals
  import opened History
  import opened Json
  import opened JsonReader
  import opened Lines
  import opened Wrappers
  import C = ContextText

  /** The tags that the prompt's instructions explain to the model. */
  datatype Tag = ToolInteraction | WorkflowFeedback | WorkflowEvidence | OmittedInteraction
  {
    function Opening(): string {
      match this
      case ToolInteraction => "<tool_interaction" + " trust=\"untrusted-data\">\n"
      case WorkflowFeedback => "<workflow_feedback" + " trust=\"trusted-workflow-instruction\">\n"
      case WorkflowEvidence => "<workflow_evidence" + " trust=\"untrusted-data\">\n"
      case OmittedInteraction => "<omitted_interaction" + " trust=\"untrusted-data\">\n"
    }

    function Closing(): string {
      match this
      case ToolInteraction => "</tool_interaction>"
      case WorkflowFeedback => "</workflow_feedback>"
      case WorkflowEvidence => "</workflow_evidence>"
      case OmittedInteraction => "</omitted_interaction>"
    }
  }

  /** A tag and the value between it and its end. */
  datatype Part = Part(tag: Tag, payload: Json)

  // --------------------------------------------------------------------------------- parts

  function TagAt(s: string): Option<Tag> {
    if ToolInteraction.Opening() <= s then Some(ToolInteraction)
    else if WorkflowFeedback.Opening() <= s then Some(WorkflowFeedback)
    else if WorkflowEvidence.Opening() <= s then Some(WorkflowEvidence)
    else if OmittedInteraction.Opening() <= s then Some(OmittedInteraction)
    else None
  }

  lemma OpeningsDiffer()
    ensures ToolInteraction.Opening()[1] == 't' && OmittedInteraction.Opening()[1] == 'o'
    ensures WorkflowFeedback.Opening()[1] == WorkflowEvidence.Opening()[1] == 'w'
    ensures WorkflowFeedback.Opening()[10] == 'f' && WorkflowEvidence.Opening()[10] == 'e'
    ensures forall tag: Tag :: |tag.Opening()| > 10 && tag.Opening()[0] == '<'
  {
  }

  lemma TagReads(tag: Tag, rest: string)
    ensures TagAt(tag.Opening() + rest) == Some(tag)
  {
    hide Tag.Opening;
    OpeningsDiffer();
    var s := tag.Opening() + rest;
    assert s[1] == tag.Opening()[1] && s[10] == tag.Opening()[10];
  }

  function ReadPart(s: string): (r: Option<(Part, string)>)
    ensures r.Some? ==> |r.value.1| < |s|
  {
    var tag :- TagAt(s);
    var payload :- ReadValue(s[|tag.Opening()|..]);
    var after :- C.Expect(payload.1, "\n");
    var rest :- C.Expect(after, tag.Closing());
    Some((Part(tag, payload.0), rest))
  }

  function Printed(tag: Tag, payload: Json, rest: string): string {
    tag.Opening() + (Render(payload) + ("\n" + (tag.Closing() + rest)))
  }

  lemma PartReadsBack(tag: Tag, payload: Json, rest: string)
    requires Literals(payload)
    ensures ReadPart(Printed(tag, payload, rest)) == Some((Part(tag, payload), rest))
  {
    hide ReadValue, Render, Literals, Tag.Opening, Tag.Closing, TagAt;
    var after := "\n" + (tag.Closing() + rest);
    TagReads(tag, Render(payload) + after);
    ValueReadsBack(payload, after);
    C.ExpectReads("\n", tag.Closing() + rest);
    C.ExpectReads(tag.Closing(), rest);
  }

  // -------------------------------------------------------------------------------- blocks

  /** One step's parts stand on consecutive lines; a blank line or the end follows them. */
  function ReadBlock(s: string): (r: Option<(seq<Part>, string)>)
    ensures r.Some? ==> |r.value.1| < |s|
    decreases |s|
  {
    var part :- ReadPart(s);
    if "\n<" <= part.1 then
      var more :- ReadBlock(part.1[1..]);
      Some(([part.0] + more.0, more.1))
    else Some(([part.0], part.1))
  }

  function ReadHistory(s: string): Option<seq<seq<Part>>>
    decreases |s|
  {
    if s == "" then Some([])
    else
      var block :- ReadBlock(s);
      if block.1 == "" then Some([block.0])
      else
        var next :- C.Expect(block.1, "\n\n");
        var more :- ReadHistory(next);
        Some([block.0] + more)
  }

  /** Every atom of what a step prints is a number, a boolean or null. */
  predicate Printable(step: Step) {
    match step.shown
    case Interaction(payload) => Literals(payload)
    case Feedback(trusted, evidence) => Literals(trusted) && Literals(evidence)
  }

  lemma {:induction false} CutKeepsLiterals(v: Json, limit: nat)
    requires Literals(v)
    ensures Literals(Truncate(v, limit))
  {
    match v
    case Text(_) =>
    case Atom(_) =>
    case List(items) => CutKeepsLiteralItems(items, limit);
    case Object(fields) => CutKeepsLiteralFields(fields, limit);
  }

  lemma {:induction false} CutKeepsLiteralItems(items: Items, limit: nat)
    requires LiteralItems(items)
    ensures LiteralItems(TruncateItems(items, limit))
  {
    match items
    case EndItems =>
    case Items(first, rest) =>
      CutKeepsLiterals(first, limit);
      CutKeepsLiteralItems(rest, limit);
  }

  lemma {:induction false} CutKeepsLiteralFields(fields: Fields, limit: nat)
    requires LiteralFields(fields)
    ensures LiteralFields(TruncateFields(fields, limit))
  {
    match fields
    case EndFields =>
    case Fields(_, value, rest) =>
      CutKeepsLiterals(value, limit);
      CutKeepsLiteralFields(rest, limit);
  }

  lemma BoundedKeepsLiterals(v: Json, limit: Option<nat>)
    requires Literals(v)
    ensures Literals(Bounded(v, limit))
  {
    if limit.Some? {
      CutKeepsLiterals(v, limit.value);
    }
  }

  lemma SinglePartReads(tag: Tag, payload: Json, rest: string)
    requires Literals(payload) && !("\n<" <= rest)
    ensures ReadBlock(Printed(tag, payload, rest)) == Some(([Part(tag, payload)], rest))
  {
    hide ReadPart, Printed, Literals;
    PartReadsBack(tag, payload, rest);
  }

  /** A tool interaction is read back as untrusted data, holding the step's payload. */
  lemma InteractionReadsBack(step: Step, limit: Option<nat>, rest: string)
    requires step.shown.Interaction? && Printable(step) && !("\n<" <= rest)
    ensures ReadBlock(Block(step, limit) + rest)
            == Some(([Part(ToolInteraction, Bounded(step.shown.payload, limit))], rest))
  {
    hide ReadBlock, Render, Bounded, Literals;
    var payload := Bounded(step.shown.payload, limit);
    BoundedKeepsLiterals(step.shown.payload, limit);
    SinglePartReads(ToolInteraction, payload, rest);
    Grouped(ToolInteraction.Opening(), Render(payload), ToolInteraction.Closing(), rest);
  }

  lemma Grouped(open: string, payload: string, close: string, rest: string)
    ensures (open + payload + "\n" + close) + rest == open + (payload + ("\n" + (close + rest)))
  {
  }

  /** Workflow feedback is read back as a trusted instruction holding the workflow's own payload,
      and beside it, as untrusted data, the evidence. */
  lemma FeedbackReadsBack(step: Step, limit: Option<nat>, rest: string)
    requires step.shown.Feedback? && Printable(step) && !("\n<" <= rest)
    ensures ReadBlock(Block(step, limit) + rest)
            == Some(([Part(WorkflowFeedback, Bounded(step.shown.trusted, limit)),
                      Part(WorkflowEvidence, Bounded(step.shown.evidence, limit))], rest))
  {
    hide ReadPart, Render, Bounded, Literals, Block, Printed, Tag.Opening, Tag.Closing;
    var trusted, evidence := Bounded(step.shown.trusted, limit), Bounded(step.shown.evidence, limit);
    BoundedKeepsLiterals(step.shown.trusted, limit);
    BoundedKeepsLiterals(step.shown.evidence, limit);
    var second := Printed(WorkflowEvidence, evidence, rest);
    SinglePartReads(WorkflowEvidence, evidence, rest);
    PartReadsBack(WorkflowFeedback, trusted, "\n" + second);
    PrintedStarts(WorkflowEvidence, evidence, rest);
    var after := "\n" + second;
    assert after[1..] == second && after[..2] == "\n<";
    assert "\n<" <= after;
    var parts := [Part(WorkflowFeedback, trusted), Part(WorkflowEvidence, evidence)];
    assert [Part(WorkflowFeedback, trusted)] + [Part(WorkflowEvidence, evidence)] == parts;
    assert ReadBlock(Printed(WorkflowFeedback, trusted, after)) == Some((parts, rest));
    FeedbackPrinted(step, limit, rest);
  }

  lemma PrintedStarts(tag: Tag, payload: Json, rest: string)
    ensures Printed(tag, payload, rest) != "" && Printed(tag, payload, rest)[0] == '<'
  {
    hide Render, Tag.Opening, Tag.Closing;
    OpeningsDiffer();
  }

  lemma FeedbackPrinted(step: Step, limit: Option<nat>, rest: string)
    requires step.shown.Feedback?
    ensures Block(step, limit) + rest
            == Printed(WorkflowFeedback, Bounded(step.shown.trusted, limit),
                       "\n" + Printed(WorkflowEvidence, Bounded(step.shown.evidence, limit), rest))
  {
    hide Render, Bounded;
    var trusted, evidence := Render(Bounded(step.shown.trusted, limit)), Render(Bounded(step.shown.evidence, limit));
    Chained(WorkflowFeedback.Opening(), trusted, WorkflowFeedback.Closing(), WorkflowEvidence.Opening(), evidence,
            WorkflowEvidence.Closing(), rest);
  }

  lemma Chained(first: string, trusted: string, close: string, open: string, evidence: string, end: string,
                rest: string)
    ensures (first + trusted + "\n" + close + "\n" + open + evidence + "\n" + end) + rest
            == first + (trusted + ("\n" + (close + ("\n" + (open + (evidence + ("\n" + (end + rest))))))))
  {
  }

  // ------------------------------------------------------------------------ the whole history

  /** The value an omission marker holds: which step it stands for and how much is missing. */
  function OmittedPayload(step: Step, omittedChars: nat): Json {
    var name := if step.toolName.Some? then Fields("tool_name", Text(step.toolName.value), EndFields) else EndFields;
    Object(Fields("action", Text(step.action),
           Fields("iteration", Atom(Decimal(step.iteration)),
           Fields("omitted_chars", Atom(Decimal(omittedChars)), name))))
  }

  lemma DecimalIsLiteral(n: nat)
    ensures Literals(Atom(Decimal(n)))
  {
    DecimalIsDigits(n);
  }

  lemma OmittedIsLiteral(step: Step, omittedChars: nat)
    ensures Literals(OmittedPayload(step, omittedChars))
  {
    hide Decimal;
    DecimalIsLiteral(step.iteration);
    DecimalIsLiteral(omittedChars);
    var name := if step.toolName.Some? then Fields("tool_name", Text(step.toolName.value), EndFields) else EndFields;
    assert name.Fields? ==> LiteralFields(name.rest);
    assert LiteralFields(name);
    var counted := Fields("omitted_chars", Atom(Decimal(omittedChars)), name);
    assert LiteralFields(counted);
    var numbered := Fields("iteration", Atom(Decimal(step.iteration)), counted);
    assert LiteralFields(numbered);
    assert LiteralFields(Fields("action", Text(step.action), numbered));
  }

  lemma OmittedReadsBack(step: Step, omittedChars: nat, rest: string)
    requires !("\n<" <= rest)
    ensures ReadBlock(OmittedBlock(step, omittedChars) + rest)
            == Some(([Part(OmittedInteraction, OmittedPayload(step, omittedChars))], rest))
  {
    hide ReadBlock, Render, Decimal;
    var payload := OmittedPayload(step, omittedChars);
    OmittedIsLiteral(step, omittedChars);
    SinglePartReads(OmittedInteraction, payload, rest);
    Grouped(OmittedInteraction.Opening(), Render(payload), OmittedInteraction.Closing(), rest);
  }

  /** The tags around a step's values, and which value each of them holds. */
  function BlockParts(step: Step, limit: Option<nat>): (parts: seq<Part>) {
    match step.shown
    case Interaction(payload) => [Part(ToolInteraction, Bounded(payload, limit))]
    case Feedback(trusted, evidence) =>
      [Part(WorkflowFeedback, Bounded(trusted, limit)), Part(WorkflowEvidence, Bounded(evidence, limit))]
  }

  /** What a reader finds for one step, in the form the step was shown in. */
  function Parts(step: Step, entry: Entry): (parts: seq<Part>)
    requires entry != Skipped
  {
    match entry
    case Full => BlockParts(step, None)
    case CutAt(limit) => BlockParts(step, Some(limit))
    case Omitted => [Part(OmittedInteraction, OmittedPayload(step, |Block(step, None)|))]
  }

  function AllParts(steps: seq<Step>, entries: seq<Entry>): seq<seq<Part>>
    requires |steps| == |entries|
  {
    if steps == [] then []
    else if entries[0] == Skipped then AllParts(steps[1..], entries[1..])
    else [Parts(steps[0], entries[0])] + AllParts(steps[1..], entries[1..])
  }

  lemma EntryReadsBack(step: Step, entry: Entry, rest: string)
    requires entry != Skipped && Printable(step) && !("\n<" <= rest)
    ensures ReadBlock(EntryText(step, entry) + rest) == Some((Parts(step, entry), rest))
  {
    hide ReadBlock, Block, OmittedBlock, Bounded;
    var limit := if entry.CutAt? then Some(entry.limit) else None;
    if entry.Omitted? {
      OmittedReadsBack(step, |Block(step, None)|, rest);
    } else if step.shown.Interaction? {
      InteractionReadsBack(step, limit, rest);
    } else {
      FeedbackReadsBack(step, limit, rest);
    }
  }

  lemma {:induction false} ShownReadBack(steps: seq<Step>, entries: seq<Entry>)
    requires |steps| == |entries| && forall i :: 0 <= i < |steps| ==> Printable(steps[i])
    ensures ReadHistory(Join(ShownBlocks(steps, entries))) == Some(AllParts(steps, entries))
    ensures ShownBlocks(steps, entries) == [] <==> AllParts(steps, entries) == []
  {
    hide ReadBlock, Parts, EntryText, Printable;
    if steps != [] {
      ShownReadBack(steps[1..], entries[1..]);
      if entries[0] != Skipped {
        var text, later := EntryText(steps[0], entries[0]), ShownBlocks(steps[1..], entries[1..]);
        if later == [] {
          assert [text] + later == [text] && text + "" == text && Join([text]) == text;
          EntryReadsBack(steps[0], entries[0], "");
          assert [Parts(steps[0], entries[0])] + [] == [Parts(steps[0], entries[0])];
        } else {
          var rest := "\n\n" + Join(later);
          JoinMore(text, later);
          assert Join([text] + later) == text + rest;
          assert rest[1] == '\n';
          EntryReadsBack(steps[0], entries[0], rest);
          C.ExpectReads("\n\n", Join(later));
        }
      }
    }
  }

  /** The printed history reads back as what was chosen to be shown, block by block. */
  lemma HistoryReadsBack(text: string, entries: seq<Entry>, steps: seq<Step>, budget: int)
    requires IsHistory(text, entries, steps, budget) && forall i :: 0 <= i < |steps| ==> Printable(steps[i])
    ensures text == "" ==> ReadHistory(text) == Some([])
    ensures text != "" ==> |entries| == |steps| && ReadHistory(text) == Some(AllParts(steps, entries))
  {
    hide Chosen, NewestChoice, AllParts, ShownBlocks, Printable, Reserve;
    if text != "" {
      ShownReadBack(steps, entries);
    }
  }

  /** Whatever tools, files and models returned, the only values a reader sees under the trusted label
      are the workflow's own instructions, whole or cut, of steps that are workflow feedback. */
  lemma OnlyInstructionsAreTrusted(text: string, entries: seq<Entry>, steps: seq<Step>, budget: int,
                                   blocks: seq<seq<Part>>)
    requires IsHistory(text, entries, steps, budget) && forall i :: 0 <= i < |steps| ==> Printable(steps[i])
    requires ReadHistory(text) == Some(blocks)
    ensures forall b, p ::
              (&& 0 <= b < |blocks| && 0 <= p < |blocks[b]|
               && blocks[b][p].tag.Opening() == "<workflow_feedback" + " trust=\"trusted-workflow-instruction\">\n")
              ==> exists i, limit :: && 0 <= i < |steps| && steps[i].shown.Feedback?
                                     && blocks[b][p].payload == Bounded(steps[i].shown.trusted, limit)
  {
    hide IsHistory, ReadHistory, Bounded, Tag.Opening, AllParts;
    HistoryReadsBack(text, entries, steps, budget);
    OpeningsDiffer();
    forall b, p | 0 <= b < |blocks| && 0 <= p < |blocks[b]|
      && blocks[b][p].tag.Opening() == "<workflow_feedback" + " trust=\"trusted-workflow-instruction\">\n"
      ensures exists i, limit :: && 0 <= i < |steps| && steps[i].shown.Feedback?
                                 && blocks[b][p].payload == Bounded(steps[i].shown.trusted, limit)
    {
      var i, limit := TrustedPart(steps, entries, b, p);
    }
  }

  lemma TrustedPart(steps: seq<Step>, entries: seq<Entry>, b: nat, p: nat) returns (i: nat, limit: Option<nat>)
    requires |steps| == |entries| && b < |AllParts(steps, entries)| && p < |AllParts(steps, entries)[b]|
    requires AllParts(steps, entries)[b][p].tag.WorkflowFeedback?
    ensures i < |steps| && steps[i].shown.Feedback?
    ensures AllParts(steps, entries)[b][p].payload == Bounded(steps[i].shown.trusted, limit)
  {
    hide Bounded, AllParts;
    i := PartsAreOfStep(steps, entries, b);
    limit := if entries[i].CutAt? then Some(entries[i].limit) else None;
  }

  lemma {:induction false} PartsAreOfStep(steps: seq<Step>, entries: seq<Entry>, b: nat) returns (i: nat)
    requires |steps| == |entries| && b < |AllParts(steps, entries)|
    ensures i < |steps| && entries[i] != Skipped && AllParts(steps, entries)[b] == Parts(steps[i], entries[i])
  {
    hide Parts;
    var skipped := if entries[0] == Skipped then 0 else 1;
    if b >= skipped {
      i := PartsAreOfStep(steps[1..], entries[1..], b - skipped);
      i := i + 1;
    } else {
      i := 0;
    }
  }
}
