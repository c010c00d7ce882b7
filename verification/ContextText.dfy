/** The repository context of a prompt: untrusted source text inside delimiters it cannot forge. */
module ContextText {
  import opened Chunks
  import opened Decimals
  import opened Lines
  import opened Wrappers

  // ------------------------------------------------------------------------------ escaping

  function EscapeChar(c: char): (s: string)
    ensures 1 <= |s| <= 5
  {
    if c == '&' then "&amp;" else if c == '<' then "&lt;" else if c == '>' then "&gt;" else [c]
  }

  function Escape(s: string): string {
    if s == "" then "" else EscapeChar(s[0]) + Escape(s[1..])
  }

  function Unescape(s: string): Option<string> {
    if s == "" then Some("")
    else if s[0] == '<' || s[0] == '>' then None
    else if s[0] != '&' then
      var rest :- Unescape(s[1..]);
      Some([s[0]] + rest)
    else if "&amp;" <= s then
      var rest :- Unescape(s[5..]);
      Some("&" + rest)
    else if "&lt;" <= s then
      var rest :- Unescape(s[4..]);
      Some("<" + rest)
    else if "&gt;" <= s then
      var rest :- Unescape(s[4..]);
      Some(">" + rest)
    else None
  }

  /** Escaping is injective: there is a way back. */
  lemma {:induction false} UnescapeEscaped(s: string)
    ensures Unescape(Escape(s)) == Some(s)
  {
    if s != "" {
      UnescapeEscaped(s[1..]);
      var head, rest := EscapeChar(s[0]), Escape(s[1..]);
      assert Escape(s) == head + rest && (head + rest)[|head|..] == rest;
      assert [s[0]] + s[1..] == s;
      if s[0] == '<' {
        assert (head + rest)[1] == 'l';
      } else if s[0] == '>' {
        assert (head + rest)[1] == 'g';
      }
    }
  }

  predicate NoTag(s: string) {
    forall i :: 0 <= i < |s| ==> s[i] != '<' && s[i] != '>'
  }

  lemma {:induction false} EscapedHasNoTag(s: string)
    ensures NoTag(Escape(s))
  {
    if s != "" {
      EscapedHasNoTag(s[1..]);
    }
  }

  // ------------------------------------------------------------------------ reading fields

  function Expect(s: string, literal: string): Option<string> {
    if literal <= s then Some(s[|literal|..]) else None
  }

  lemma ExpectReads(literal: string, rest: string)
    ensures Expect(literal + rest, literal) == Some(rest)
  {
  }

  /** The text before the first tag, and the rest from that tag on. */
  function UntilTag(s: string): (string, string) {
    if s == "" || s[0] == '<' then ("", s)
    else
      var (text, rest) := UntilTag(s[1..]);
      ([s[0]] + text, rest)
  }

  lemma {:induction false} UntilTagReads(text: string, rest: string)
    requires NoTag(text) && rest != "" && rest[0] == '<'
    ensures UntilTag(text + rest) == (text, rest)
  {
    if text == "" {
      assert text + rest == rest;
    } else {
      assert (text + rest)[1..] == text[1..] + rest;
      UntilTagReads(text[1..], rest);
      assert [text[0]] + text[1..] == text;
    }
  }

  function Field(open: string, text: string, close: string): string {
    open + (Escape(text) + close)
  }

  function ReadField(s: string, open: string, close: string): Option<(string, string)> {
    var inside :- Expect(s, open);
    var (escaped, after) := UntilTag(inside);
    var text :- Unescape(escaped);
    var rest :- Expect(after, close);
    Some((text, rest))
  }

  lemma Reassociate(a: string, b: string, c: string)
    ensures (a + b) + c == a + (b + c)
  {
  }

  lemma FieldReadsBack(open: string, text: string, close: string, rest: string)
    requires close != "" && close[0] == '<'
    ensures ReadField(Field(open, text, close) + rest, open, close) == Some((text, rest))
  {
    hide Escape, Unescape, UntilTag;
    var escaped := Escape(text);
    Reassociate(open, escaped + close, rest);
    Reassociate(escaped, close, rest);
    ExpectReads(open, escaped + (close + rest));
    EscapedHasNoTag(text);
    assert (close + rest)[0] == '<';
    UntilTagReads(escaped, close + rest);
    UnescapeEscaped(text);
    ExpectReads(close, rest);
  }

  // ------------------------------------------------------------------------------- blocks

  datatype Source = Source(id: nat, chunk: CodeChunk, truncated: bool)

  /** What a reader of the prompt can see of a source. */
  datatype Shown = Shown(id: nat, path: string, startLine: nat, endLine: nat, language: Option<string>,
                         truncated: bool, content: string)

  function ShownOf(source: Source): Shown {
    var c := source.chunk;
    Shown(source.id, c.path, c.startLine, c.endLine, c.language, source.truncated, c.content)
  }

  const CONTENT_TAG := "<content" + " trust=\"untrusted-data\" encoding=\"xml-escaped\""
  const CONTENT_OPEN := CONTENT_TAG + ">\n"
  const TRUNCATED_CONTENT_OPEN := CONTENT_TAG + " truncated=\"true\">\n"
  const CONTENT_CLOSE := "</content>\n</source>"

  function Header(id: nat): string {
    "<source id=\"S" + (Decimal(id) + "\">\n")
  }

  function LineRange(startLine: nat, endLine: nat): string {
    "<lines>" + (Decimal(startLine) + ("-" + (Decimal(endLine) + "</lines>\n")))
  }

  function LanguageField(language: Option<string>): string {
    if language.None? then "" else Field("<language>", language.value, "</language>\n")
  }

  function ContentField(truncated: bool, content: string): string {
    Field(if truncated then TRUNCATED_CONTENT_OPEN else CONTENT_OPEN, content, CONTENT_CLOSE)
  }

  function FormatBlock(source: Source): string {
    var c := source.chunk;
    Header(source.id)
    + (Field("<path>", c.path, "</path>\n")
       + (LineRange(c.startLine, c.endLine)
          + (LanguageField(c.language) + ContentField(source.truncated, c.content))))
  }

  function ReadHeader(s: string): Option<(nat, string)> {
    var inside :- Expect(s, "<source id=\"S");
    var number :- ReadNumber(inside);
    var rest :- Expect(number.1, "\">\n");
    Some((number.0, rest))
  }

  function ReadLineRange(s: string): Option<(nat, nat, string)> {
    var inside :- Expect(s, "<lines>");
    var first :- ReadNumber(inside);
    var middle :- Expect(first.1, "-");
    var last :- ReadNumber(middle);
    var rest :- Expect(last.1, "</lines>\n");
    Some((first.0, last.0, rest))
  }

  function ReadLanguage(s: string): Option<(Option<string>, string)> {
    if "<language>" <= s then
      var field :- ReadField(s, "<language>", "</language>\n");
      Some((Some(field.0), field.1))
    else Some((None, s))
  }

  function ReadContent(s: string): Option<(bool, string, string)> {
    var truncated := TRUNCATED_CONTENT_OPEN <= s;
    var field :- ReadField(s, if truncated then TRUNCATED_CONTENT_OPEN else CONTENT_OPEN, CONTENT_CLOSE);
    Some((truncated, field.0, field.1))
  }

  function ReadBlock(s: string): Option<(Shown, string)> {
    var id :- ReadHeader(s);
    var path :- ReadField(id.1, "<path>", "</path>\n");
    var lines :- ReadLineRange(path.1);
    var language :- ReadLanguage(lines.2);
    var content :- ReadContent(language.1);
    Some((Shown(id.0, path.0, lines.0, lines.1, language.0, content.0, content.1), content.2))
  }

  lemma HeaderReadsBack(id: nat, rest: string)
    ensures ReadHeader(Header(id) + rest) == Some((id, rest))
  {
    hide ReadNumber, Decimal;
    Reassociate("<source id=\"S", Decimal(id) + "\">\n", rest);
    Reassociate(Decimal(id), "\">\n", rest);
    ExpectReads("<source id=\"S", Decimal(id) + ("\">\n" + rest));
    NumberReadsBack(id, "\">\n" + rest);
    ExpectReads("\">\n", rest);
  }

  lemma LineRangeReadsBack(startLine: nat, endLine: nat, rest: string)
    ensures ReadLineRange(LineRange(startLine, endLine) + rest) == Some((startLine, endLine, rest))
  {
    hide ReadNumber, Decimal;
    var last := Decimal(endLine) + "</lines>\n";
    Reassociate("<lines>", Decimal(startLine) + ("-" + last), rest);
    Reassociate(Decimal(startLine), "-" + last, rest);
    Reassociate("-", last, rest);
    Reassociate(Decimal(endLine), "</lines>\n", rest);
    ExpectReads("<lines>", Decimal(startLine) + ("-" + (last + rest)));
    NumberReadsBack(startLine, "-" + (last + rest));
    ExpectReads("-", last + rest);
    NumberReadsBack(endLine, "</lines>\n" + rest);
    ExpectReads("</lines>\n", rest);
  }

  lemma ContentReadsBack(truncated: bool, content: string, rest: string)
    ensures ReadContent(ContentField(truncated, content) + rest) == Some((truncated, content, rest))
    ensures !("<language>" <= ContentField(truncated, content) + rest)
  {
    hide ReadField, Escape;
    var open := if truncated then TRUNCATED_CONTENT_OPEN else CONTENT_OPEN;
    var s := ContentField(truncated, content) + rest;
    assert open <= s;
    assert s[|CONTENT_TAG|] == open[|CONTENT_TAG|] && s[1] == open[1] == "<content"[1];
    FieldReadsBack(open, content, CONTENT_CLOSE, rest);
  }

  lemma LanguageReadsBack(language: Option<string>, rest: string)
    requires !("<language>" <= rest)
    ensures ReadLanguage(LanguageField(language) + rest) == Some((language, rest))
  {
    hide ReadField, Escape;
    if language.Some? {
      FieldReadsBack("<language>", language.value, "</language>\n", rest);
    } else {
      assert "" + rest == rest;
    }
  }

  /** A block reads back, whatever text its path, language and content hold. */
  lemma BlockReadsBack(source: Source, rest: string)
    ensures ReadBlock(FormatBlock(source) + rest) == Some((ShownOf(source), rest))
  {
    hide Header, Field, LineRange, LanguageField, ContentField, ReadHeader, ReadField, ReadLineRange, ReadLanguage,
      ReadContent;
    var c := source.chunk;
    var content := ContentField(source.truncated, c.content);
    var language := LanguageField(c.language);
    var lines := LineRange(c.startLine, c.endLine);
    var path := Field("<path>", c.path, "</path>\n");
    Reassociate(Header(source.id), path + (lines + (language + content)), rest);
    Reassociate(path, lines + (language + content), rest);
    Reassociate(lines, language + content, rest);
    Reassociate(language, content, rest);
    HeaderReadsBack(source.id, path + (lines + (language + (content + rest))));
    FieldReadsBack("<path>", c.path, "</path>\n", lines + (language + (content + rest)));
    LineRangeReadsBack(c.startLine, c.endLine, language + (content + rest));
    ContentReadsBack(source.truncated, c.content, rest);
    LanguageReadsBack(c.language, content + rest);
  }

  // ------------------------------------------------------------------------ whole contexts

  const CONTEXT_OPEN := "<repository_context trust=\"untrusted-data\">\n"
  const CONTEXT_CLOSE := "</repository_context>"

  function Blocks(sources: seq<Source>): (blocks: seq<string>)
    ensures |blocks| == |sources|
  {
    seq(|sources|, i requires 0 <= i < |sources| => FormatBlock(sources[i]))
  }

  function Assembled(blocks: seq<string>): string {
    var body := Join(blocks);
    CONTEXT_OPEN + ((if body == "" then "" else body + "\n") + CONTEXT_CLOSE)
  }

  function ReadBlocks(s: string): Option<seq<Shown>>
    decreases |s|
  {
    var block :- ReadBlock(s);
    if block.1 == "\n" + CONTEXT_CLOSE then Some([block.0])
    else
      var next :- Expect(block.1, "\n\n");
      if |next| >= |s| then None
      else
        var rest :- ReadBlocks(next);
        Some([block.0] + rest)
  }

  function ReadContext(s: string): Option<seq<Shown>> {
    var body :- Expect(s, CONTEXT_OPEN);
    if body == CONTEXT_CLOSE then Some([]) else ReadBlocks(body)
  }

  function ShownAll(sources: seq<Source>): seq<Shown> {
    seq(|sources|, i requires 0 <= i < |sources| => ShownOf(sources[i]))
  }

  lemma BlockIsNotEmpty(source: Source)
    ensures |FormatBlock(source)| > 1 && FormatBlock(source)[0] == '<' && FormatBlock(source)[1] == 's'
  {
  }

  lemma {:induction false} BlocksReadBack(sources: seq<Source>)
    requires sources != []
    ensures ReadBlocks(Join(Blocks(sources)) + ("\n" + CONTEXT_CLOSE)) == Some(ShownAll(sources))
  {
    hide FormatBlock, ReadBlock, ShownOf;
    var end := "\n" + CONTEXT_CLOSE;
    var first, rest := sources[0], sources[1..];
    assert ShownAll(sources) == [ShownOf(first)] + ShownAll(rest);
    assert Blocks(sources) == [FormatBlock(first)] + Blocks(rest);
    if rest == [] {
      assert Blocks(rest) == [] && ShownAll(rest) == [];
      assert Join(Blocks(sources)) == FormatBlock(first);
      BlockReadsBack(first, end);
      assert ShownAll(sources) == [ShownOf(first)];
    } else {
      var next := Join(Blocks(rest)) + end;
      JoinMore(FormatBlock(first), Blocks(rest));
      assert Join(Blocks(sources)) + end == FormatBlock(first) + ("\n\n" + next);
      BlockReadsBack(first, "\n\n" + next);
      assert ("\n\n" + next)[1] == '\n' && end[1] == '<';
      BlocksReadBack(rest);
      ExpectReads("\n\n", next);
    }
  }

  /** Everything shown in a context reads back exactly: no untrusted text can forge structure. */
  lemma ContextReadsBack(sources: seq<Source>)
    ensures ReadContext(Assembled(Blocks(sources))) == Some(ShownAll(sources))
  {
    hide ReadBlocks, FormatBlock;
    var body := Join(Blocks(sources));
    if sources != [] {
      BlockIsNotEmpty(sources[0]);
      BlocksReadBack(sources);
      JoinStarts(Blocks(sources));
      assert body + "\n" + CONTEXT_CLOSE == body + ("\n" + CONTEXT_CLOSE);
      assert (body + ("\n" + CONTEXT_CLOSE))[1] == FormatBlock(sources[0])[1] == 's' && CONTEXT_CLOSE[1] == '/';
      ExpectReads(CONTEXT_OPEN, body + ("\n" + CONTEXT_CLOSE));
    } else {
      assert Blocks(sources) == [] && ShownAll(sources) == [];
      assert "" + CONTEXT_CLOSE == CONTEXT_CLOSE;
      ExpectReads(CONTEXT_OPEN, CONTEXT_CLOSE);
    }
  }

  lemma JoinStarts(blocks: seq<string>)
    requires blocks != []
    ensures blocks[0] <= Join(blocks)
  {
  }
}
