/** Decimal numerals: how they grow, and that they read back. */
module Decimals {
  import opened Wrappers

  function Decimal(n: nat): (s: string)
    ensures |s| >= 1
  {
    if n < 10 then [('0' as int + n) as char] else Decimal(n / 10) + [('0' as int + n % 10) as char]
  }

  /** Counting up one adds at most one digit, and never removes one. */
  lemma {:induction false} DigitsGrowSlowly(n: nat)
    ensures |Decimal(n)| <= |Decimal(n + 1)| <= |Decimal(n)| + 1
  {
    if n >= 10 {
      DigitsGrowSlowly(n / 10);
    }
  }

  lemma {:induction false} DigitsMonotone(a: nat, b: nat)
    requires a <= b
    ensures |Decimal(a)| <= |Decimal(b)|
    decreases b - a
  {
    if a < b {
      DigitsGrowSlowly(a);
      DigitsMonotone(a + 1, b);
    }
  }

  predicate IsDigit(c: char) {
    '0' <= c <= '9'
  }

  /** The number that the digits at the start of `s` continue, and what follows them. */
  function ReadDigits(s: string, before: nat): (nat, string) {
    if s != "" && IsDigit(s[0]) then ReadDigits(s[1..], before * 10 + (s[0] as int - '0' as int)) else (before, s)
  }

  function ReadNumber(s: string): Option<(nat, string)> {
    if s == "" || !IsDigit(s[0]) then None else Some(ReadDigits(s, 0))
  }

  lemma {:induction false} DecimalIsDigits(n: nat)
    ensures forall i :: 0 <= i < |Decimal(n)| ==> IsDigit(Decimal(n)[i])
  {
    if n >= 10 {
      DecimalIsDigits(n / 10);
    }
  }

  /** Reading a numeral pushes its digits onto the number so far. */
  lemma {:induction false} ReadPrinted(n: nat, rest: string)
    ensures ReadDigits(Decimal(n) + rest, 0) == ReadDigits(rest, n)
  {
    if n >= 10 {
      var tail := [('0' as int + n % 10) as char] + rest;
      assert Decimal(n) + rest == Decimal(n / 10) + tail;
      ReadPrinted(n / 10, tail);
      assert tail[1..] == rest;
    } else {
      assert (Decimal(n) + rest)[1..] == rest;
    }
  }

  lemma NumberReadsBack(n: nat, rest: string)
    requires rest != "" && !IsDigit(rest[0])
    ensures ReadNumber(Decimal(n) + rest) == Some((n, rest))
  {
    DecimalIsDigits(n);
    assert (Decimal(n) + rest)[0] == Decimal(n)[0];
    ReadPrinted(n, rest);
  }
}
