/** Reading a printed JSON value back: nothing of it is lost in print, and nothing after it is touched. */
module JsonReader {
  import opened Json
  import opened Wrappers

  // ---------------------------------------------------------------------------- characters

  /** What numbers, booleans and null are written with. */
  predicate LiteralChar(c: char) {
    '0' <= c <= '9' || 'a' <= c <= 'z' || 'A' <= c <= 'Z' || c == '-' || c == '+' || c == '.'
  }

  predicate Literals(v: Json) {
    match v
    case Text(_) => true
    case Atom(literal) => literal != "" && forall i :: 0 <= i < |literal| ==> LiteralChar(literal[i])
    case List(items) => LiteralItems(items)
    case Object(fields) => LiteralFields(fields)
  }

  predicate LiteralItems(items: Items) {
    match items
    case EndItems => true
    case Items(first, rest) => Literals(first) && LiteralItems(rest)
  }

  predicate LiteralFields(fields: Fields) {
    match fields
    case EndFields => true
    case Fields(_, value, rest) => Literals(value) && LiteralFields(rest)
  }

  function HexValue(c: char): Option<nat> {
    if '0' <= c <= '9' then Some(c as int - '0' as int)
    else if 'a' <= c <= 'f' then Some(c as int - 'a' as int + 10)
    else None
  }

  /** The character that the escapes at the start of `s` stand for. */
  function ReadChar(s: string): (r: Option<(char, string)>)
    ensures r.Some? ==> |r.value.1| < |s|
  {
    if s == "" || s[0] == '"' then None
    else if s[0] != '\\' then Some((s[0], s[1..]))
    else if |s| < 2 then None
    else if s[1] == '"' then Some(('"', s[2..]))
    else if s[1] == '\\' then Some(('\\', s[2..]))
    else if s[1] == 'n' then Some(('\n', s[2..]))
    else if s[1] == 'r' then Some(('\r', s[2..]))
    else if s[1] == 't' then Some(('\t', s[2..]))
    else if s[1] == 'b' then Some((8 as char, s[2..]))
    else if s[1] == 'f' then Some((12 as char, s[2..]))
    else if |s| < 6 || s[1] != 'u' || s[2] != '0' || s[3] != '0' then None
    else
      var high :- HexValue(s[4]);
      var low :- HexValue(s[5]);
      Some(((16 * high + low) as char, s[6..]))
  }

  lemma CharReadsBack(c: char, rest: string)
    ensures ReadChar(EscapeChar(c) + rest) == Some((c, rest))
  {
    var escaped := EscapeChar(c);
    assert (escaped + rest)[|escaped|..] == rest;
    assert forall i :: 0 <= i < |escaped| ==> (escaped + rest)[i] == escaped[i];
  }

  lemma EscapeStarts(c: char)
    ensures EscapeChar(c)[0] != '"'
  {
  }

  /** The string whose printed characters start `s`, up to its closing quote. */
  function ReadString(s: string): (r: Option<(string, string)>)
    ensures r.Some? ==> |r.value.1| < |s|
    decreases |s|
  {
    if s != "" && s[0] == '"' then Some(("", s[1..]))
    else
      var first :- ReadChar(s);
      var more :- ReadString(first.1);
      Some(([first.0] + more.0, more.1))
  }

  lemma {:induction false} StringReadsBack(s: string, rest: string)
    ensures ReadString(Escape(s) + ("\"" + rest)) == Some((s, rest))
  {
    hide ReadChar, EscapeChar;
    if s == "" {
      assert "" + ("\"" + rest) == "\"" + rest;
    } else {
      var tail := Escape(s[1..]) + ("\"" + rest);
      assert Escape(s) + ("\"" + rest) == EscapeChar(s[0]) + tail;
      CharReadsBack(s[0], tail);
      EscapeStarts(s[0]);
      StringReadsBack(s[1..], rest);
      assert [s[0]] + s[1..] == s;
    }
  }

  // -------------------------------------------------------------------------------- values

  function LiteralLength(s: string): (n: nat)
    ensures n <= |s|
  {
    if s != "" && LiteralChar(s[0]) then 1 + LiteralLength(s[1..]) else 0
  }

  function ReadValue(s: string): (r: Option<(Json, string)>)
    ensures r.Some? ==> |r.value.1| < |s|
    decreases |s|, 0
  {
    if s == "" then None
    else if s[0] == '"' then
      var text :- ReadString(s[1..]);
      Some((Text(text.0), text.1))
    else if s[0] == '[' then
      var items :- ReadItems(s[1..]);
      Some((List(items.0), items.1))
    else if s[0] == '{' then
      var fields :- ReadFields(s[1..]);
      Some((Object(fields.0), fields.1))
    else
      var n := LiteralLength(s);
      if n == 0 then None else Some((Atom(s[..n]), s[n..]))
  }

  /** The items of a list up to its closing bracket. */
  function ReadItems(s: string): (r: Option<(Items, string)>)
    ensures r.Some? ==> |r.value.1| < |s|
    decreases |s|, 1
  {
    if s != "" && s[0] == ']' then Some((EndItems, s[1..]))
    else
      var first :- ReadValue(s);
      var after :- AfterComma(first.1, ']');
      var more :- ReadItems(after);
      Some((Items(first.0, more.0), more.1))
  }

  /** The fields of an object up to its closing brace. */
  function ReadFields(s: string): (r: Option<(Fields, string)>)
    ensures r.Some? ==> |r.value.1| < |s|
    decreases |s|, 1
  {
    if s != "" && s[0] == '}' then Some((EndFields, s[1..]))
    else if s == "" || s[0] != '"' then None
    else
      var key :- ReadString(s[1..]);
      if key.1 == "" || key.1[0] != ':' then None
      else
        var value :- ReadValue(key.1[1..]);
        var after :- AfterComma(value.1, '}');
        var more :- ReadFields(after);
        Some((Fields(key.0, value.0, more.0), more.1))
  }

  /** What follows a value inside a list or an object: a comma, or the end, which is left in place. */
  function AfterComma(s: string, end: char): (r: Option<string>)
    ensures r.Some? ==> |r.value| <= |s|
  {
    if s == "" then None else if s[0] == ',' then Some(s[1..]) else if s[0] == end then Some(s) else None
  }

  lemma {:induction false} LiteralReads(literal: string, rest: string)
    requires forall i :: 0 <= i < |literal| ==> LiteralChar(literal[i])
    requires rest == "" || !LiteralChar(rest[0])
    ensures LiteralLength(literal + rest) == |literal|
  {
    if literal == "" {
      assert literal + rest == rest;
    } else {
      assert (literal + rest)[1..] == literal[1..] + rest;
      LiteralReads(literal[1..], rest);
    }
  }

  function Separated(last: bool, body: string): string {
    if last then body else "," + body
  }

  lemma CommaReads(last: bool, body: string, close: string)
    requires close != "" && close[0] != ',' && !LiteralChar(close[0]) && (last ==> body == "")
    ensures AfterComma(Separated(last, body) + close, close[0]) == Some(body + close)
    ensures !LiteralChar((Separated(last, body) + close)[0])
  {
    if last {
      assert body + close == close;
    } else {
      assert Separated(last, body) + close == "," + (body + close);
    }
  }

  lemma ValueStarts(v: Json)
    requires Literals(v)
    ensures Render(v) != "" && Render(v)[0] != ']'
  {
  }

  lemma TextReadsBack(text: string, rest: string)
    ensures ReadValue(Render(Text(text)) + rest) == Some((Text(text), rest))
  {
    hide ReadString, Escape;
    assert (Render(Text(text)) + rest)[1..] == Escape(text) + ("\"" + rest);
    StringReadsBack(text, rest);
  }

  lemma AtomReadsBack(literal: string, rest: string)
    requires Literals(Atom(literal)) && (rest == "" || !LiteralChar(rest[0]))
    ensures ReadValue(Render(Atom(literal)) + rest) == Some((Atom(literal), rest))
  {
    hide LiteralLength;
    LiteralReads(literal, rest);
    var s := literal + rest;
    assert LiteralChar(literal[0]) && s[0] == literal[0];
    assert s[..|literal|] == literal && s[|literal|..] == rest;
  }

  /** A printed value reads back as itself, whatever comes after it. */
  lemma {:induction false} ValueReadsBack(v: Json, rest: string)
    requires Literals(v) && (rest == "" || !LiteralChar(rest[0]))
    ensures ReadValue(Render(v) + rest) == Some((v, rest))
    decreases v
  {
    hide LiteralChar, Escape;
    var s := Render(v) + rest;
    match v
    case Text(text) => TextReadsBack(text, rest);
    case Atom(literal) => AtomReadsBack(literal, rest);
    case List(items) =>
      assert s[1..] == RenderItems(items) + ("]" + rest);
      ItemsReadBack(items, rest);
    case Object(fields) =>
      assert s[1..] == RenderFields(fields) + ("}" + rest);
      FieldsReadBack(fields, rest);
  }

  lemma {:induction false} ItemsReadBack(items: Items, rest: string)
    requires LiteralItems(items)
    ensures ReadItems(RenderItems(items) + ("]" + rest)) == Some((items, rest))
    decreases items
  {
    hide Render, ReadValue, Literals, AfterComma;
    match items
    case EndItems =>
      assert RenderItems(items) + ("]" + rest) == "]" + rest;
    case Items(first, more) =>
      var close := "]" + rest;
      var tail := Separated(more.EndItems?, RenderItems(more)) + close;
      assert RenderItems(items) + close == Render(first) + tail;
      CommaReads(more.EndItems?, RenderItems(more), close);
      ValueStarts(first);
      ItemsReadBack(more, rest);
      ValueReadsBack(first, tail);
  }

  lemma FieldPrinted(key: string, value: Json, more: Fields, close: string)
    ensures var tail := Separated(more.EndFields?, RenderFields(more)) + close;
            var s := RenderFields(Fields(key, value, more)) + close;
            s != "" && s[0] == '"' && s[1..] == Escape(key) + ("\"" + (":" + (Render(value) + tail)))
  {
    hide Escape, Render, RenderFields, Separated;
    FieldRendered(key, value, more);
    Regrouped(Escape(key), Render(value), Separated(more.EndFields?, RenderFields(more)), close);
  }

  lemma FieldRendered(key: string, value: Json, more: Fields)
    ensures RenderFields(Fields(key, value, more))
            == ((("\"" + Escape(key) + "\"") + ":") + Render(value)) + Separated(more.EndFields?, RenderFields(more))
  {
    hide Escape, Render;
    var front := (("\"" + Escape(key) + "\"") + ":") + Render(value);
    assert RenderFields(Fields(key, value, more))
           == front + (if more.EndFields? then "" else ",") + RenderFields(more);
  }

  lemma Regrouped(k: string, v: string, m: string, close: string)
    ensures var s := ((("\"" + k + "\"") + ":") + v) + m + close;
            s != "" && s[0] == '"' && s[1..] == k + ("\"" + (":" + (v + (m + close))))
  {
  }

  lemma {:induction false} FieldsReadBack(fields: Fields, rest: string)
    requires LiteralFields(fields)
    ensures ReadFields(RenderFields(fields) + ("}" + rest)) == Some((fields, rest))
    decreases fields
  {
    hide Render, ReadValue, Literals, Escape, ReadString, Separated, AfterComma;
    match fields
    case EndFields =>
      assert RenderFields(fields) + ("}" + rest) == "}" + rest;
    case Fields(key, value, more) =>
      var close := "}" + rest;
      var tail := Separated(more.EndFields?, RenderFields(more)) + close;
      var valued := ":" + (Render(value) + tail);
      FieldPrinted(key, value, more, close);
      CommaReads(more.EndFields?, RenderFields(more), close);
      StringReadsBack(key, valued);
      assert valued[1..] == Render(value) + tail;
      FieldsReadBack(more, rest);
      ValueReadsBack(value, tail);
  }
}
