/** Python's order on strings, and sorted() on a set of distinct strings. */
module Orders {
  /** a <= b by code points, as str comparison decides it. */
  predicate StringLe(a: string, b: string) {
    if a == [] then true
    else if b == [] then false
    else if a[0] != b[0] then a[0] < b[0]
    else StringLe(a[1..], b[1..])
  }

  /** The first difference decides. */
  lemma {:induction false} StringLeIs(a: string, b: string, k: nat)
    requires k < |a| && k < |b| && a[k] != b[k] && forall i :: 0 <= i < k ==> a[i] == b[i]
    ensures StringLe(a, b) <==> a[k] < b[k]
  {
    if k > 0 {
      StringLeIs(a[1..], b[1..], k - 1);
    }
  }

  /** Without one, the shorter comes first. */
  lemma {:induction false} PrefixIsLe(a: string, b: string)
    requires forall i :: 0 <= i < |a| && i < |b| ==> a[i] == b[i]
    ensures StringLe(a, b) <==> |a| <= |b|
  {
    if a != [] && b != [] {
      PrefixIsLe(a[1..], b[1..]);
    }
  }

  lemma {:induction false} StringLeTotal(a: string, b: string)
    ensures StringLe(a, b) || StringLe(b, a)
  {
    if a != [] && b != [] && a[0] == b[0] {
      StringLeTotal(a[1..], b[1..]);
    }
  }

  lemma {:induction false} StringLeAntisymmetric(a: string, b: string)
    requires StringLe(a, b) && StringLe(b, a)
    ensures a == b
  {
    if a != [] && b != [] {
      StringLeAntisymmetric(a[1..], b[1..]);
      assert a == [a[0]] + a[1..] && b == [b[0]] + b[1..];
    }
  }

  lemma {:induction false} StringLeTransitive(a: string, b: string, c: string)
    requires StringLe(a, b) && StringLe(b, c)
    ensures StringLe(a, c)
  {
    if a != [] && a[0] == b[0] == c[0] {
      StringLeTransitive(a[1..], b[1..], c[1..]);
    }
  }

  predicate IsLeast(s: set<string>, m: string) {
    m in s && forall x :: x in s ==> StringLe(m, x)
  }

  lemma {:induction false} LeastExists(s: set<string>)
    requires s != {}
    ensures exists m :: IsLeast(s, m)
    decreases |s|
  {
    var pick :| pick in s;
    var rest := s - {pick};
    if rest == {} {
      assert s == {pick};
      StringLeTotal(pick, pick);
      assert IsLeast(s, pick);
    } else {
      LeastExists(rest);
      var m :| IsLeast(rest, m);
      StringLeTotal(m, pick);
      StringLeTotal(pick, pick);
      if StringLe(m, pick) {
        assert IsLeast(s, m);
      } else {
        forall x | x in s ensures StringLe(pick, x) {
          if x != pick { StringLeTransitive(pick, m, x); }
        }
        assert IsLeast(s, pick);
      }
    }
  }

  lemma LeastUnique(s: set<string>)
    ensures forall m, n :: IsLeast(s, m) && IsLeast(s, n) ==> m == n
  {
    forall m, n | IsLeast(s, m) && IsLeast(s, n)
      ensures m == n
    {
      StringLeAntisymmetric(m, n);
    }
  }

  ghost predicate Ascending(r: seq<string>) {
    forall i, k :: 0 <= i < k < |r| ==> r[i] != r[k] && StringLe(r[i], r[k])
  }

  lemma AscendingExtended(selected: seq<string>, x: string)
    requires Ascending(selected)
    requires forall p :: p in selected ==> p != x && StringLe(p, x)
    ensures Ascending(selected + [x])
  {
    forall i | 0 <= i < |selected|
      ensures selected[i] != x && StringLe(selected[i], x)
    {
      assert selected[i] in selected;
    }
  }

  /** sorted(s): each element once, ascending. */
  function Sorted(s: set<string>): (r: seq<string>)
    ensures forall x :: x in r <==> x in s
    ensures Ascending(r)
    decreases |s|
  {
    if s == {} then []
    else
      LeastExists(s);
      LeastUnique(s);
      var m :| m in s && IsLeast(s, m);
      LeastFirst(s, m, Sorted(s - {m}));
      [m] + Sorted(s - {m})
  }

  lemma LeastFirst(s: set<string>, m: string, rest: seq<string>)
    requires IsLeast(s, m) && Ascending(rest) && forall x :: x in rest <==> x in s - {m}
    ensures Ascending([m] + rest)
    ensures forall x :: x in [m] + rest <==> x in s
  {
    forall k | 0 <= k < |rest|
      ensures m != rest[k] && StringLe(m, rest[k])
    {
      assert rest[k] in rest;
    }
  }

  lemma SortedElements(s: set<string>)
    ensures forall i :: 0 <= i < |Sorted(s)| ==> Sorted(s)[i] in s
    ensures Sorted(s) == [] <==> s == {}
  {
  }
}
