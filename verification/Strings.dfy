/** Digits, and strings in code point order, as the source's `sorted` puts them. */
module Strings {

  predicate IsDigit(c: char) {
    '0' <= c <= '9'
  }

  predicate Before(a: string, b: string) {
    if b == "" then false
    else if a == "" then true
    else a[0] < b[0] || (a[0] == b[0] && Before(a[1..], b[1..]))
  }

  /** The first difference decides, and a proper prefix comes first. */
  ghost predicate ComesFirst(a: string, b: string) {
    || (|a| < |b| && a == b[..|a|])
    || exists i | 0 <= i < |a| && i < |b| :: a[..i] == b[..i] && a[i] < b[i]
  }

  lemma {:induction false} BeforeIff(a: string, b: string)
    ensures Before(a, b) <==> ComesFirst(a, b)
  {
    if a != "" && b != "" {
      BeforeIff(a[1..], b[1..]);
      if a[0] == b[0] {
        RestComesFirst(a, b);
      } else if a[0] < b[0] {
        assert a[..0] == b[..0];
      } else if ComesFirst(a, b) {
        FirstIsSmaller(a, b);
      }
    }
  }

  lemma FirstIsSmaller(a: string, b: string)
    requires a != "" && b != "" && ComesFirst(a, b)
    ensures a[0] <= b[0]
  {
    if !(|a| < |b| && a == b[..|a|]) {
      var i :| 0 <= i < |a| && i < |b| && a[..i] == b[..i] && a[i] < b[i];
      if i > 0 {
        assert a[..i][0] == b[..i][0];
      }
    } else {
      assert a[0] == b[..|a|][0];
    }
  }

  lemma RestComesFirst(a: string, b: string)
    requires a != "" && b != "" && a[0] == b[0]
    ensures ComesFirst(a, b) <==> ComesFirst(a[1..], b[1..])
  {
    var x, y := a[1..], b[1..];
    assert a == [a[0]] + x && b == [a[0]] + y;
    if |a| < |b| {
      assert b[..|a|] == [a[0]] + y[..|x|];
      assert b[..|a|][1..] == y[..|x|];
    }
    if i :| 0 <= i < |a| && i < |b| && a[..i] == b[..i] && a[i] < b[i] {
      assert a[..i][1..] == x[..i - 1] && b[..i][1..] == y[..i - 1];
      assert x[i - 1] < y[i - 1];
    }
    if i :| 0 <= i < |x| && i < |y| && x[..i] == y[..i] && x[i] < y[i] {
      assert a[..i + 1] == [a[0]] + x[..i] && b[..i + 1] == [a[0]] + y[..i];
    }
  }

  lemma {:induction false} BeforeIsTransitive(a: string, b: string, c: string)
    requires Before(a, b) && Before(b, c)
    ensures Before(a, c)
  {
    if a != "" && a[0] == b[0] == c[0] {
      BeforeIsTransitive(a[1..], b[1..], c[1..]);
    }
  }

  lemma {:induction false} BeforeIsIrreflexive(a: string)
    ensures !Before(a, a)
  {
    if a != "" {
      BeforeIsIrreflexive(a[1..]);
    }
  }

  lemma {:induction false} BeforeIsTotal(a: string, b: string)
    ensures a == b || Before(a, b) || Before(b, a)
  {
    if a != "" && b != "" && a[0] == b[0] {
      BeforeIsTotal(a[1..], b[1..]);
      assert a == [a[0]] + a[1..] && b == [b[0]] + b[1..];
    }
  }

  predicate IsFirst(first: string, s: set<string>) {
    first in s && forall x | x in s :: x == first || Before(first, x)
  }

  lemma FirstExists(s: set<string>) returns (first: string)
    requires s != {}
    ensures IsFirst(first, s)
  {
    var x :| x in s;
    if s == {x} {
      first := x;
    } else {
      var rest := FirstExists(s - {x});
      BeforeIsTotal(x, rest);
      first := if Before(x, rest) then x else rest;
      forall y | y in s
        ensures y == first || Before(first, y)
      {
        if y != x && first == x && y != rest {
          BeforeIsTransitive(x, rest, y);
        }
      }
    }
  }

  lemma SomeFirst(s: set<string>)
    requires s != {}
    ensures exists first :: IsFirst(first, s)
  {
    var first := FirstExists(s);
  }

  lemma FirstIsUnique(a: string, b: string, s: set<string>)
    requires IsFirst(a, s) && IsFirst(b, s)
    ensures a == b
  {
    if a != b {
      BeforeIsTransitive(a, b, a);
      BeforeIsIrreflexive(a);
    }
  }

  predicate IsSorted(strings: seq<string>) {
    forall i, j | 0 <= i < j < |strings| :: Before(strings[i], strings[j])
  }

  function First(s: set<string>): (first: string)
    requires s != {}
    ensures IsFirst(first, s)
  {
    SomeFirst(s);
    assert forall a, b | IsFirst(a, s) && IsFirst(b, s) :: a == b by {
      forall a, b | IsFirst(a, s) && IsFirst(b, s)
        ensures a == b
      {
        FirstIsUnique(a, b, s);
      }
    }
    var first :| first in s && IsFirst(first, s);
    first
  }

  /** The elements of a set, strictly ascending. */
  function Sorted(s: set<string>): (strings: seq<string>)
    ensures IsSorted(strings) && |strings| == |s|
    ensures forall x :: x in strings <==> x in s
  {
    if s == {} then []
    else
      var first := First(s);
      [first] + Sorted(s - {first})
  }

  lemma FirstElement(a: seq<string>)
    ensures a == [] || a[0] in a
  {
  }

  /** A set has one ascending listing. */
  lemma {:induction false} SortedIsUnique(a: seq<string>, b: seq<string>)
    requires IsSorted(a) && IsSorted(b) && forall x :: x in a <==> x in b
    ensures a == b
  {
    if a == [] {
      FirstElement(b);
    } else {
      assert a[0] in a && a[0] in b;
      assert b[0] in b && b[0] in a;
      if a[0] != b[0] {
        BeforeIsTransitive(a[0], b[0], a[0]);
        BeforeIsIrreflexive(a[0]);
      }
      forall x
        ensures x in a[1..] <==> x in b[1..]
      {
        BeforeIsIrreflexive(a[0]);
        assert x in a <==> x == a[0] || x in a[1..];
        assert x in b <==> x == b[0] || x in b[1..];
      }
      SortedIsUnique(a[1..], b[1..]);
    }
  }
}
