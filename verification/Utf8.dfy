/** UTF-8 as section 3 of RFC 3629 defines it, and Python's utf-8-sig and cp1252 codecs. */
module Utf8 {
  import opened Search
  import opened Wrappers

  type Byte = b: int | 0 <= b < 256

  /** A Python string is a sequence of code points, lone surrogates included. */
  type Point = c: int | 0 <= c < 0x110000

  predicate Scalar(c: Point) {
    c < 0xD800 || c >= 0xE000
  }

  predicate Scalars(s: seq<Point>) {
    forall i :: 0 <= i < |s| ==> Scalar(s[i])
  }

  predicate Continuation(b: Byte) {
    0x80 <= b < 0xC0
  }

  /** The payload bits of a continuation byte. */
  function Low(b: Byte): int {
    b - 0x80
  }

  function Continued(n: int): Byte {
    0x80 + n % 64
  }

  function EncodePoint(c: Point): (bytes: seq<Byte>)
    requires Scalar(c)
    ensures 1 <= |bytes| <= 4
  {
    var c1 := c / 64;
    var c2 := c1 / 64;
    if c < 0x80 then [c]
    else if c < 0x800 then [0xC0 + c1, Continued(c)]
    else if c < 0x10000 then [0xE0 + c2, Continued(c1), Continued(c)]
    else [0xF0 + c2 / 64, Continued(c2), Continued(c1), Continued(c)]
  }

  function Encode(s: seq<Point>): seq<Byte>
    requires Scalars(s)
  {
    if s == [] then [] else EncodePoint(s[0]) + Encode(s[1..])
  }

  /** The first code point and its length in bytes; overlong forms and surrogates are malformed. */
  function DecodeFirst(b: seq<Byte>): Option<(Point, nat)>
    requires b != []
  {
    var lead: int := b[0];
    if lead < 0x80 then Some((lead, 1))
    else if 0xC2 <= lead < 0xE0 && |b| >= 2 && Continuation(b[1]) then
      Some(((lead - 0xC0) * 64 + Low(b[1]), 2))
    else if 0xE0 <= lead < 0xF0 && |b| >= 3 && Continuation(b[1]) && Continuation(b[2]) then
      var c := ((lead - 0xE0) * 64 + Low(b[1])) * 64 + Low(b[2]);
      if c < 0x800 || !Scalar(c) then None else Some((c, 3))
    else if 0xF0 <= lead < 0xF5 && |b| >= 4 && Continuation(b[1]) && Continuation(b[2]) && Continuation(b[3]) then
      var c := (((lead - 0xF0) * 64 + Low(b[1])) * 64 + Low(b[2])) * 64 + Low(b[3]);
      if c < 0x10000 || c >= 0x110000 then None else Some((c, 4))
    else None
  }

  function Decode(b: seq<Byte>): Option<seq<Point>> {
    if b == [] then Some([])
    else
      match DecodeFirst(b)
      case None => None
      case Some((c, n)) =>
        if n > |b| then None
        else
          match Decode(b[n..])
          case None => None
          case Some(rest) => Some([c] + rest)
  }

  // ------------------------------------------------------------------------- round trips

  lemma DecodeEncodedPoint(c: Point, rest: seq<Byte>)
    requires Scalar(c)
    ensures DecodeFirst(EncodePoint(c) + rest) == Some((c, |EncodePoint(c)|))
  {
  }

  lemma SixBits(high: nat, low: nat)
    requires low < 64
    ensures (high * 64 + low) / 64 == high && (high * 64 + low) % 64 == low
  {
  }

  lemma EncodeDecodedPoint(b: seq<Byte>)
    requires b != [] && DecodeFirst(b).Some?
    ensures var (c, n) := DecodeFirst(b).value;
            Scalar(c) && n <= |b| && EncodePoint(c) == b[..n]
  {
    if b[0] >= 0xE0 {
      EncodeDecodedLong(b);
    } else if b[0] >= 0x80 {
      SixBits(b[0] - 0xC0, Low(b[1]));
    }
  }

  lemma EncodeDecodedLong(b: seq<Byte>)
    requires b != [] && b[0] >= 0xE0 && DecodeFirst(b).Some?
    ensures var (c, n) := DecodeFirst(b).value;
            Scalar(c) && n <= |b| && EncodePoint(c) == b[..n]
  {
    if b[0] < 0xF0 {
      SixBits(b[0] - 0xE0, Low(b[1]));
      SixBits((b[0] - 0xE0) * 64 + Low(b[1]), Low(b[2]));
    } else {
      SixBits(b[0] - 0xF0, Low(b[1]));
      SixBits((b[0] - 0xF0) * 64 + Low(b[1]), Low(b[2]));
      SixBits(((b[0] - 0xF0) * 64 + Low(b[1])) * 64 + Low(b[2]), Low(b[3]));
    }
  }

  lemma {:induction false} DecodeEncoded(s: seq<Point>)
    requires Scalars(s)
    ensures Decode(Encode(s)) == Some(s)
  {
    if s != [] {
      var head, rest := EncodePoint(s[0]), Encode(s[1..]);
      DecodeEncodedPoint(s[0], rest);
      DecodeEncoded(s[1..]);
      assert [s[0]] + s[1..] == s;
      assert Encode(s) == head + rest && (head + rest)[|head|..] == rest;
    }
  }

  lemma {:induction false} EncodeDecoded(b: seq<Byte>)
    requires Decode(b).Some?
    ensures Scalars(Decode(b).value) && Encode(Decode(b).value) == b
  {
    if b != [] {
      hide DecodeFirst, EncodePoint, Encode, Scalar;
      EncodeDecodedPoint(b);
      var (c, n) := DecodeFirst(b).value;
      EncodeDecoded(b[n..]);
      EncodeFirst(c, Decode(b[n..]).value);
      assert b == b[..n] + b[n..];
    }
  }

  lemma EncodeFirst(c: Point, rest: seq<Point>)
    requires Scalar(c) && Scalars(rest)
    ensures Scalars([c] + rest) && Encode([c] + rest) == EncodePoint(c) + Encode(rest)
  {
    assert ([c] + rest)[1..] == rest;
  }

  lemma {:induction false} EncodeAppend(s: seq<Point>, t: seq<Point>)
    requires Scalars(s) && Scalars(t)
    ensures Encode(s + t) == Encode(s) + Encode(t)
  {
    if s == [] {
      assert s + t == t;
    } else {
      assert (s + t)[1..] == s[1..] + t;
      EncodeAppend(s[1..], t);
    }
  }

  // ------------------------------------------------------------------ self-synchronisation

  lemma OnlyFirstByteLeads(c: Point, i: nat)
    requires Scalar(c) && i < |EncodePoint(c)|
    ensures Continuation(EncodePoint(c)[i]) <==> i > 0
  {
  }

  /** A byte that is no continuation byte starts a code point. */
  lemma {:induction false} LeadsStartPoints(s: seq<Point>, i: nat) returns (k: nat)
    requires Scalars(s) && i < |Encode(s)| && !Continuation(Encode(s)[i])
    ensures k < |s| && |Encode(s[..k])| == i
  {
    var head := EncodePoint(s[0]);
    if i < |head| {
      OnlyFirstByteLeads(s[0], i);
      k := 0;
    } else {
      var before := LeadsStartPoints(s[1..], i - |head|);
      k := before + 1;
      assert s[..k] == [s[0]] + s[1..][..before];
    }
  }

  lemma {:induction false} EncodedPrefix(s: seq<Point>, pattern: seq<Point>)
    requires Scalars(s) && Scalars(pattern) && Encode(pattern) <= Encode(s)
    ensures pattern <= s
  {
    if pattern != [] {
      hide EncodePoint, DecodeFirst;
      var head, rest := EncodePoint(pattern[0]), Encode(pattern[1..]);
      var after := Encode(s)[|Encode(pattern)|..];
      assert Encode(s) == head + (rest + after);
      DecodeEncodedPoint(pattern[0], rest + after);
      if s != [] {
        DecodeEncodedPoint(s[0], Encode(s[1..]));
        assert Encode(s[1..]) == Encode(s)[|head|..] == rest + after;
        EncodedPrefix(s[1..], pattern[1..]);
      }
    }
  }

  lemma {:induction false} EncodedOccurrence(s: seq<Point>, pattern: seq<Point>, k: nat)
    requires Scalars(s) && Scalars(pattern) && OccursAt(s, pattern, k)
    ensures OccursAt(Encode(s), Encode(pattern), |Encode(s[..k])|)
  {
    var before, after := s[..k], s[k + |pattern|..];
    assert s == before + (pattern + after);
    EncodeAppend(before, pattern + after);
    EncodeAppend(pattern, after);
  }

  lemma DecodedOccurrence(s: seq<Point>, pattern: seq<Point>, i: nat) returns (k: nat)
    requires Scalars(s) && Scalars(pattern) && pattern != [] && OccursAt(Encode(s), Encode(pattern), i)
    ensures OccursAt(s, pattern, k) && |Encode(s[..k])| == i
  {
    var bytes, wanted := Encode(s), Encode(pattern);
    OnlyFirstByteLeads(pattern[0], 0);
    assert bytes[i] == bytes[i..i + |wanted|][0] == wanted[0];
    k := LeadsStartPoints(s, i);
    assert s == s[..k] + s[k..];
    EncodeAppend(s[..k], s[k..]);
    assert Encode(s[k..]) == bytes[i..];
    assert bytes[i..][..|wanted|] == bytes[i..i + |wanted|];
    EncodedPrefix(s[k..], pattern);
    assert s[k..k + |pattern|] == s[k..][..|pattern|];
  }

  lemma PrefixWidths(s: seq<Point>, j: nat, k: nat)
    requires Scalars(s) && j <= k <= |s|
    ensures |Encode(s[..j])| <= |Encode(s[..k])|
  {
    assert s[..k] == s[..j] + s[j..k];
    EncodeAppend(s[..j], s[j..k]);
  }

  /** The leftmost byte occurrence is the encoding of the leftmost text occurrence. */
  lemma FindEncoded(s: seq<Point>, pattern: seq<Point>)
    requires Scalars(s) && Scalars(pattern) && pattern != []
    ensures match Find(s, pattern)
            case None => Find(Encode(s), Encode(pattern)) == None
            case Some(k) => Find(Encode(s), Encode(pattern)) == Some(|Encode(s[..k])|)
  {
    hide Encode, Find;
    var found := Find(Encode(s), Encode(pattern));
    if found.Some? {
      var j := DecodedOccurrence(s, pattern, found.value);
      NothingBefore(s, pattern, j);
      PrefixWidths(s, Find(s, pattern).value, j);
    }
    if Find(s, pattern).Some? {
      var k := Find(s, pattern).value;
      EncodedOccurrence(s, pattern, k);
      NothingBefore(Encode(s), Encode(pattern), |Encode(s[..k])|);
    }
  }

  /** Replacing bytes is replacing text. */
  lemma ReplaceEncoded(s: seq<Point>, pattern: seq<Point>, replacement: seq<Point>)
    requires Scalars(s) && Scalars(pattern) && Scalars(replacement) && pattern != []
    ensures Scalars(ReplaceFirst(s, pattern, replacement))
    ensures ReplaceFirst(Encode(s), Encode(pattern), Encode(replacement))
            == Encode(ReplaceFirst(s, pattern, replacement))
  {
    hide Encode, Find;
    FindEncoded(s, pattern);
    if Find(s, pattern).Some? {
      var k := Find(s, pattern).value;
      var before, after := s[..k], s[k + |pattern|..];
      assert s == before + (pattern + after);
      EncodeAppend(before, pattern + after);
      EncodeAppend(pattern, after);
      Around(Encode(before), Encode(pattern), Encode(after));
      EncodeAppend(before + replacement, after);
      EncodeAppend(before, replacement);
    }
  }

  lemma Around(before: seq<Byte>, middle: seq<Byte>, after: seq<Byte>)
    ensures var all := before + (middle + after);
            all[..|before|] == before && all[|before| + |middle|..] == after
  {
  }
}
