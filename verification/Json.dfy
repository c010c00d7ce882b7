/** JSON values as the prompts print them, and what cutting long strings does to the printed length. */
module Json {
  import opened Decimals

  /** An atom is a number, a boolean or null: no text of its own to cut. Fields are in printing order. */
  datatype Json = Text(s: string) | Atom(literal: string) | List(items: Items) | Object(fields: Fields)
  datatype Items = EndItems | Items(first: Json, rest: Items)
  datatype Fields = EndFields | Fields(key: string, value: Json, rest: Fields)

  // ------------------------------------------------------------------------------ printing

  function HexDigit(n: nat): char
    requires n < 16
  {
    if n < 10 then ('0' as int + n) as char else ('a' as int + n - 10) as char
  }

  /** JSON string escapes, and \u escapes for the three characters that could close a prompt tag. */
  function EscapeChar(c: char): (s: string)
    ensures |s| >= 1
  {
    if c == '"' then "\\\""
    else if c == '\\' then "\\\\"
    else if c == '\n' then "\\n"
    else if c == '\r' then "\\r"
    else if c == '\t' then "\\t"
    else if c == 8 as char then "\\b"
    else if c == 12 as char then "\\f"
    else if c == '&' then "\\u0026"
    else if c == '<' then "\\u003c"
    else if c == '>' then "\\u003e"
    else if c as int < 32 then "\\u00" + [HexDigit(c as int / 16), HexDigit(c as int % 16)]
    else [c]
  }

  function Escape(s: string): string {
    if s == "" then "" else EscapeChar(s[0]) + Escape(s[1..])
  }

  function Quote(s: string): string {
    "\"" + Escape(s) + "\""
  }

  function Render(v: Json): string {
    match v
    case Text(s) => Quote(s)
    case Atom(literal) => literal
    case List(items) => "[" + RenderItems(items) + "]"
    case Object(fields) => "{" + RenderFields(fields) + "}"
  }

  function RenderItems(items: Items): string {
    match items
    case EndItems => ""
    case Items(first, rest) => Render(first) + (if rest.EndItems? then "" else ",") + RenderItems(rest)
  }

  function RenderFields(fields: Fields): string {
    match fields
    case EndFields => ""
    case Fields(key, value, rest) =>
      Quote(key) + ":" + Render(value) + (if rest.EndFields? then "" else ",") + RenderFields(rest)
  }

  // ------------------------------------------------------------------------------- cutting

  function SignedDecimal(n: int): string {
    if n < 0 then "-" + Decimal(-n) else Decimal(n)
  }

  function Marker(removed: int): string {
    "[truncated " + SignedDecimal(removed) + " chars]"
  }

  /** A string is cut only when the cut and its marker are shorter than the string. */
  function Cut(s: string, limit: nat): string {
    if |s| <= limit + |Marker(|s| - limit)| then s else s[..limit] + Marker(|s| - limit)
  }

  function Truncate(v: Json, limit: nat): Json {
    match v
    case Text(s) => Text(Cut(s, limit))
    case Atom(_) => v
    case List(items) => List(TruncateItems(items, limit))
    case Object(fields) => Object(TruncateFields(fields, limit))
  }

  function TruncateItems(items: Items, limit: nat): Items {
    match items
    case EndItems => EndItems
    case Items(first, rest) => Items(Truncate(first, limit), TruncateItems(rest, limit))
  }

  function TruncateFields(fields: Fields, limit: nat): Fields {
    match fields
    case EndFields => EndFields
    case Fields(key, value, rest) => Fields(key, Truncate(value, limit), TruncateFields(rest, limit))
  }

  function Max(a: nat, b: nat): nat {
    if a < b then b else a
  }

  function Longest(v: Json): nat {
    match v
    case Text(s) => |s|
    case Atom(_) => 0
    case List(items) => LongestItem(items)
    case Object(fields) => LongestField(fields)
  }

  function LongestItem(items: Items): nat {
    match items
    case EndItems => 0
    case Items(first, rest) => Max(Longest(first), LongestItem(rest))
  }

  function LongestField(fields: Fields): nat {
    match fields
    case EndFields => 0
    case Fields(_, value, rest) => Max(Longest(value), LongestField(rest))
  }

  // ------------------------------------------------------------------- length under cutting

  lemma {:induction false} EscapeAppend(a: string, b: string)
    ensures Escape(a + b) == Escape(a) + Escape(b)
  {
    if a == "" {
      assert a + b == b;
    } else {
      assert (a + b)[1..] == a[1..] + b;
      EscapeAppend(a[1..], b);
    }
  }

  lemma {:induction false} EscapeNeverShrinks(s: string)
    ensures |Escape(s)| >= |s|
  {
    if s != "" {
      EscapeNeverShrinks(s[1..]);
    }
  }

  lemma {:induction false} EscapeKeepsPlain(s: string)
    requires forall i :: 0 <= i < |s| ==> EscapeChar(s[i]) == [s[i]]
    ensures Escape(s) == s
  {
    hide EscapeChar;
    if s != "" {
      EscapeKeepsPlain(s[1..]);
      assert s == [s[0]] + s[1..];
    }
  }

  lemma {:induction false} DigitsArePlain(n: nat)
    ensures forall i :: 0 <= i < |Decimal(n)| ==> EscapeChar(Decimal(n)[i]) == [Decimal(n)[i]]
  {
    if n >= 10 {
      DigitsArePlain(n / 10);
    }
  }

  lemma MarkerWordsArePlain()
    ensures Escape("[truncated ") == "[truncated " && Escape(" chars]") == " chars]"
  {
    hide Escape;
    EscapeKeepsPlain("[truncated ");
    EscapeKeepsPlain(" chars]");
  }

  lemma MarkerIsPlain(removed: nat)
    ensures Escape(Marker(removed)) == Marker(removed)
  {
    hide Escape, EscapeChar, Decimal;
    var d := Decimal(removed);
    DigitsArePlain(removed);
    EscapeKeepsPlain(d);
    MarkerWordsArePlain();
    EscapeAppend("[truncated ", d);
    EscapeAppend("[truncated " + d, " chars]");
  }

  lemma CutWidth(s: string, limit: nat)
    requires |s| > limit + |Marker(|s| - limit)|
    ensures |Escape(Cut(s, limit))| == |Escape(s[..limit])| + |Marker(|s| - limit)|
  {
    EscapeAppend(s[..limit], Marker(|s| - limit));
    MarkerIsPlain(|s| - limit);
  }

  lemma MarkerShrinksSlowly(removed: nat)
    requires removed > 0
    ensures |Marker(removed - 1)| <= |Marker(removed)| <= |Marker(removed - 1)| + 1
  {
    DigitsGrowSlowly(removed - 1);
  }

  /** A kept string is at least as long as any cut of it. */
  lemma CutNeverLonger(s: string, limit: nat)
    requires |s| > limit + |Marker(|s| - limit)|
    ensures |Escape(Cut(s, limit))| <= |Escape(s)|
  {
    hide Escape, Decimal;
    CutWidth(s, limit);
    assert s == s[..limit] + s[limit..];
    EscapeAppend(s[..limit], s[limit..]);
    EscapeNeverShrinks(s[limit..]);
  }

  /** One more character allowed never shortens the printed string, although the marker may lose
      a digit and characters have different printed widths. */
  lemma CutStep(s: string, limit: nat)
    ensures |Quote(Cut(s, limit))| <= |Quote(Cut(s, limit + 1))|
  {
    hide Escape, Decimal;
    if |s| > limit + |Marker(|s| - limit)| {
      MarkerShrinksSlowly(|s| - limit);
      if |s| <= limit + 1 + |Marker(|s| - limit - 1)| {
        CutNeverLonger(s, limit);
      } else {
        CutWidth(s, limit);
        CutWidth(s, limit + 1);
        assert s[..limit + 1] == s[..limit] + [s[limit]];
        EscapeAppend(s[..limit], [s[limit]]);
        EscapeNeverShrinks([s[limit]]);
      }
    } else if |s| > limit {
      MarkerShrinksSlowly(|s| - limit);
    } else {
      assert Cut(s, limit) == s == Cut(s, limit + 1);
    }
  }

  lemma {:induction false} RenderStep(v: Json, limit: nat)
    ensures |Render(Truncate(v, limit))| <= |Render(Truncate(v, limit + 1))|
  {
    match v
    case Text(s) => CutStep(s, limit);
    case Atom(_) =>
    case List(items) => RenderItemsStep(items, limit);
    case Object(fields) => RenderFieldsStep(fields, limit);
  }

  lemma {:induction false} RenderItemsStep(items: Items, limit: nat)
    ensures |RenderItems(TruncateItems(items, limit))| <= |RenderItems(TruncateItems(items, limit + 1))|
  {
    match items
    case EndItems =>
    case Items(first, rest) =>
      RenderStep(first, limit);
      RenderItemsStep(rest, limit);
  }

  lemma {:induction false} RenderFieldsStep(fields: Fields, limit: nat)
    ensures |RenderFields(TruncateFields(fields, limit))| <= |RenderFields(TruncateFields(fields, limit + 1))|
  {
    match fields
    case EndFields =>
    case Fields(_, value, rest) =>
      RenderStep(value, limit);
      RenderFieldsStep(rest, limit);
  }

  /** The printed length is monotone in the truncation limit. */
  lemma {:induction false} RenderMonotone(v: Json, low: nat, high: nat)
    requires low <= high
    ensures |Render(Truncate(v, low))| <= |Render(Truncate(v, high))|
    decreases high - low
  {
    if low < high {
      RenderStep(v, low);
      RenderMonotone(v, low + 1, high);
    }
  }

  /** A limit no string exceeds changes nothing. */
  lemma {:induction false} TruncateBeyondLongest(v: Json, limit: nat)
    requires Longest(v) <= limit
    ensures Truncate(v, limit) == v
  {
    match v
    case Text(s) =>
    case Atom(_) =>
    case List(items) => TruncateItemsBeyondLongest(items, limit);
    case Object(fields) => TruncateFieldsBeyondLongest(fields, limit);
  }

  lemma {:induction false} TruncateItemsBeyondLongest(items: Items, limit: nat)
    requires LongestItem(items) <= limit
    ensures TruncateItems(items, limit) == items
  {
    match items
    case EndItems =>
    case Items(first, rest) =>
      TruncateBeyondLongest(first, limit);
      TruncateItemsBeyondLongest(rest, limit);
  }

  lemma {:induction false} TruncateFieldsBeyondLongest(fields: Fields, limit: nat)
    requires LongestField(fields) <= limit
    ensures TruncateFields(fields, limit) == fields
  {
    match fields
    case EndFields =>
    case Fields(_, value, rest) =>
      TruncateBeyondLongest(value, limit);
      TruncateFieldsBeyondLongest(rest, limit);
  }

  // ---------------------------------------------------------------------------- delimiters

  /** Holds none of the characters that prompt tags are made of. */
  predicate TagFree(s: string) {
    forall i :: 0 <= i < |s| ==> s[i] != '<' && s[i] != '>' && s[i] != '&'
  }

  predicate TagFreeAtoms(v: Json) {
    match v
    case Text(_) => true
    case Atom(literal) => TagFree(literal)
    case List(items) => TagFreeItems(items)
    case Object(fields) => TagFreeFields(fields)
  }

  predicate TagFreeItems(items: Items) {
    match items
    case EndItems => true
    case Items(first, rest) => TagFreeAtoms(first) && TagFreeItems(rest)
  }

  predicate TagFreeFields(fields: Fields) {
    match fields
    case EndFields => true
    case Fields(_, value, rest) => TagFreeAtoms(value) && TagFreeFields(rest)
  }

  lemma {:induction false} EscapedIsTagFree(s: string)
    ensures TagFree(Escape(s))
  {
    if s != "" {
      EscapedIsTagFree(s[1..]);
    }
  }

  /** No printed value can open or close a tag, whatever its strings hold. */
  lemma {:induction false} RenderedIsTagFree(v: Json)
    requires TagFreeAtoms(v)
    ensures TagFree(Render(v))
  {
    match v
    case Text(s) => EscapedIsTagFree(s);
    case Atom(_) =>
    case List(items) => RenderedItemsAreTagFree(items);
    case Object(fields) => RenderedFieldsAreTagFree(fields);
  }

  lemma {:induction false} RenderedItemsAreTagFree(items: Items)
    requires TagFreeItems(items)
    ensures TagFree(RenderItems(items))
  {
    match items
    case EndItems =>
    case Items(first, rest) =>
      RenderedIsTagFree(first);
      RenderedItemsAreTagFree(rest);
  }

  lemma {:induction false} RenderedFieldsAreTagFree(fields: Fields)
    requires TagFreeFields(fields)
    ensures TagFree(RenderFields(fields))
  {
    match fields
    case EndFields =>
    case Fields(key, value, rest) =>
      EscapedIsTagFree(key);
      RenderedIsTagFree(value);
      RenderedFieldsAreTagFree(rest);
  }
}
