/** Python's cp1252 codec: one byte per character, five bytes undefined. */
module Cp1252 {
  import opened Search
  import opened Wrappers
  import Utf8

  type Byte = Utf8.Byte
  type Point = Utf8.Point

  /** The 32 bytes from 0x80 in which cp1252 differs from Latin-1; five of them are undefined. */
  function High(i: nat): Option<Point> {
    match i
    case 0 => Some(0x20AC)
    case 2 => Some(0x201A)
    case 3 => Some(0x0192)
    case 4 => Some(0x201E)
    case 5 => Some(0x2026)
    case 6 => Some(0x2020)
    case 7 => Some(0x2021)
    case 8 => Some(0x02C6)
    case 9 => Some(0x2030)
    case 10 => Some(0x0160)
    case 11 => Some(0x2039)
    case 12 => Some(0x0152)
    case 14 => Some(0x017D)
    case 17 => Some(0x2018)
    case 18 => Some(0x2019)
    case 19 => Some(0x201C)
    case 20 => Some(0x201D)
    case 21 => Some(0x2022)
    case 22 => Some(0x2013)
    case 23 => Some(0x2014)
    case 24 => Some(0x02DC)
    case 25 => Some(0x2122)
    case 26 => Some(0x0161)
    case 27 => Some(0x203A)
    case 28 => Some(0x0153)
    case 30 => Some(0x017E)
    case 31 => Some(0x0178)
    case _ => None
  }

  function PointOf(b: Byte): Option<Point> {
    if 0x80 <= b < 0xA0 then High(b - 0x80) else Some(b)
  }

  function HighIndex(c: Point, i: nat): Option<nat>
    requires i <= 32
    decreases 32 - i
  {
    if i == 32 then None else if High(i) == Some(c) then Some(i) else HighIndex(c, i + 1)
  }

  function ByteOf(c: Point): Option<Byte> {
    if c < 0x80 || 0xA0 <= c < 0x100 then Some(c)
    else
      match HighIndex(c, 0)
      case None => None
      case Some(i) => if i < 32 then Some(0x80 + i) else None
  }

  function Decode(data: seq<Byte>): Option<seq<Point>> {
    if data == [] then Some([])
    else
      match (PointOf(data[0]), Decode(data[1..]))
      case (Some(c), Some(rest)) => Some([c] + rest)
      case _ => None
  }

  function Encode(s: seq<Point>): Option<seq<Byte>> {
    if s == [] then Some([])
    else
      match (ByteOf(s[0]), Encode(s[1..]))
      case (Some(b), Some(rest)) => Some([b] + rest)
      case _ => None
  }

  /** The text is the bytes, one code point each. */
  predicate Maps(data: seq<Byte>, s: seq<Point>) {
    |data| == |s| && forall i :: 0 <= i < |s| ==> PointOf(data[i]) == Some(s[i])
  }

  lemma HighPointsAreHigh(i: nat)
    requires i < 32 && High(i).Some?
    ensures High(i).value >= 0x100
  {
  }

  lemma {:induction false} HighIndexFinds(c: Point, i: nat, k: nat)
    requires i <= k < 32 && High(k) == Some(c)
    ensures HighIndex(c, i).Some? && i <= HighIndex(c, i).value <= k
    ensures High(HighIndex(c, i).value) == Some(c)
    decreases 32 - i
  {
    hide High;
    if High(i) != Some(c) {
      HighIndexFinds(c, i + 1, k);
    }
  }

  lemma {:induction false} HighIndexMeans(c: Point, i: nat)
    requires i <= 32 && HighIndex(c, i).Some?
    ensures HighIndex(c, i).value < 32 && High(HighIndex(c, i).value) == Some(c)
    decreases 32 - i
  {
    hide High;
    if High(i) != Some(c) {
      HighIndexMeans(c, i + 1);
    }
  }

  /** No two bytes stand for the same character. */
  lemma HighPointsDiffer(i: nat, k: nat)
    requires i < 32 && k < 32 && High(i).Some? && High(i) == High(k)
    ensures i == k
  {
  }

  lemma Inverse(b: Byte, c: Point)
    ensures PointOf(b) == Some(c) <==> ByteOf(c) == Some(b)
  {
    hide High, HighIndex;
    if 0x80 <= b < 0xA0 && PointOf(b) == Some(c) {
      HighPointsAreHigh(b - 0x80);
      HighIndexFinds(c, 0, b - 0x80);
      HighPointsDiffer(HighIndex(c, 0).value, b - 0x80);
    }
    if HighIndex(c, 0).Some? {
      HighIndexMeans(c, 0);
    }
  }

  lemma MapsStep(data: seq<Byte>, s: seq<Point>)
    requires data != [] && s != []
    ensures Maps(data, s) <==> PointOf(data[0]) == Some(s[0]) && Maps(data[1..], s[1..])
  {
    if PointOf(data[0]) == Some(s[0]) && Maps(data[1..], s[1..]) {
      forall i | 0 <= i < |s|
        ensures PointOf(data[i]) == Some(s[i])
      {
        assert i > 0 ==> data[i] == data[1..][i - 1] && s[i] == s[1..][i - 1];
      }
    }
  }

  lemma {:induction false} DecodeMaps(data: seq<Byte>, s: seq<Point>)
    ensures Decode(data) == Some(s) <==> Maps(data, s)
  {
    if data != [] && s != [] {
      DecodeMaps(data[1..], s[1..]);
      MapsStep(data, s);
      assert s == [s[0]] + s[1..];
    }
  }

  lemma {:induction false} EncodeMaps(s: seq<Point>, data: seq<Byte>)
    ensures Encode(s) == Some(data) <==> Maps(data, s)
  {
    if data != [] && s != [] {
      EncodeMaps(s[1..], data[1..]);
      Inverse(data[0], s[0]);
      MapsStep(data, s);
      assert data == [data[0]] + data[1..];
    }
  }

  lemma OccursBoth(data: seq<Byte>, s: seq<Point>, b: seq<Byte>, pattern: seq<Point>, k: nat)
    requires Maps(data, s) && Maps(b, pattern)
    ensures OccursAt(data, b, k) <==> OccursAt(s, pattern, k)
  {
    if OccursAt(s, pattern, k) {
      forall i | 0 <= i < |b|
        ensures data[k + i] == b[i]
      {
        assert s[k + i] == s[k..k + |pattern|][i];
        Inverse(data[k + i], s[k + i]);
        Inverse(b[i], pattern[i]);
      }
      assert data[k..k + |b|] == b;
    }
    if OccursAt(data, b, k) {
      forall i | 0 <= i < |pattern|
        ensures s[k + i] == pattern[i]
      {
        assert data[k + i] == data[k..k + |b|][i];
      }
      assert s[k..k + |pattern|] == pattern;
    }
  }

  lemma FindBoth(data: seq<Byte>, s: seq<Point>, b: seq<Byte>, pattern: seq<Point>)
    requires Maps(data, s) && Maps(b, pattern)
    ensures Find(data, b) == Find(s, pattern)
  {
    hide Maps, Find;
    if Find(data, b).Some? {
      OccursBoth(data, s, b, pattern, Find(data, b).value);
      NothingBefore(s, pattern, Find(data, b).value);
    }
    if Find(s, pattern).Some? {
      OccursBoth(data, s, b, pattern, Find(s, pattern).value);
      NothingBefore(data, b, Find(s, pattern).value);
    }
  }

  /** Replacing bytes is replacing text. */
  lemma ReplaceBoth(data: seq<Byte>, s: seq<Point>, b: seq<Byte>, pattern: seq<Point>, r: seq<Byte>,
                    replacement: seq<Point>)
    requires Maps(data, s) && Maps(b, pattern) && Maps(r, replacement)
    ensures Maps(ReplaceFirst(data, b, r), ReplaceFirst(s, pattern, replacement))
  {
    hide Find;
    FindBoth(data, s, b, pattern);
  }
}
