/** `StringComparer.OrdinalIgnoreCase` restricted to ASCII case folding: equality and
    ordering of strings after upper-casing their letters, and the `Distinct` and `OrderBy`
    stages that the presence registry runs with that comparer. */
module IgnoreCase {

  /** Upper-cases an ASCII letter; every other character is left alone. */
  function FoldChar(c: char): char {
    if 'a' <= c <= 'z' then (c as int - 32) as char else c
  }

  function Fold(s: string): (r: string)
    ensures |r| == |s|
    ensures forall i :: 0 <= i < |s| ==> r[i] == FoldChar(s[i])
  {
    seq(|s|, i requires 0 <= i < |s| => FoldChar(s[i]))
  }

  /** Equal ignoring case. */
  predicate EqualsIgnoreCase(a: string, b: string) {
    Fold(a) == Fold(b)
  }

  /** Ordinal (character-code) lexicographic order; a proper prefix sorts first. */
  predicate LexLess(a: string, b: string)
    decreases |a|
  {
    if b == [] then false
    else if a == [] then true
    else if a[0] != b[0] then a[0] < b[0]
    else LexLess(a[1..], b[1..])
  }

  lemma {:induction false} LexLessIrreflexive(a: string)
    ensures !LexLess(a, a)
    decreases |a|
  {
    if a != [] {
      LexLessIrreflexive(a[1..]);
    }
  }

  /** Two different strings are ordered one way or the other. */
  lemma {:induction false} LexLessTotal(a: string, b: string)
    ensures a == b || LexLess(a, b) || LexLess(b, a)
    decreases |a|
  {
    if a != [] && b != [] && a[0] == b[0] {
      LexLessTotal(a[1..], b[1..]);
      if a[1..] == b[1..] {
        assert a == [a[0]] + a[1..] && b == [b[0]] + b[1..];
      }
    }
  }

  lemma {:induction false} LexLessTransitive(a: string, b: string, c: string)
    requires LexLess(a, b) && LexLess(b, c)
    ensures LexLess(a, c)
    decreases |a|
  {
    if a != [] && a[0] == b[0] && b[0] == c[0] {
      LexLessTransitive(a[1..], b[1..], c[1..]);
    }
  }

  /** Strictly ascending ignoring case: each name sorts before every later one. */
  predicate SortedIgnoreCase(s: seq<string>) {
    forall i, j :: 0 <= i < j < |s| ==> LexLess(Fold(s[i]), Fold(s[j]))
  }

  /** No two names equal ignoring case. */
  predicate DistinctFolds(s: seq<string>) {
    forall i, j :: 0 <= i < j < |s| ==> !EqualsIgnoreCase(s[i], s[j])
  }

  /** A strictly sorted list never repeats a name, not even in another casing. */
  lemma SortedIsDistinct(s: seq<string>)
    requires SortedIgnoreCase(s)
    ensures DistinctFolds(s)
  {
    forall i, j | 0 <= i < j < |s| ensures !EqualsIgnoreCase(s[i], s[j]) {
      LexLessIrreflexive(Fold(s[i]));
    }
  }

  /** Some element of `s` equals `x` ignoring case. */
  predicate ContainsIgnoreCase(s: seq<string>, x: string)
    decreases |s|
  {
    s != [] && (EqualsIgnoreCase(s[0], x) || ContainsIgnoreCase(s[1..], x))
  }

  lemma {:induction false} ContainsIgnoreCaseAt(s: seq<string>, x: string, i: nat)
    requires i < |s| && EqualsIgnoreCase(s[i], x)
    ensures ContainsIgnoreCase(s, x)
    decreases i
  {
    if i > 0 {
      ContainsIgnoreCaseAt(s[1..], x, i - 1);
    }
  }

  lemma {:induction false} ContainsIgnoreCaseIndex(s: seq<string>, x: string) returns (i: nat)
    requires ContainsIgnoreCase(s, x)
    ensures i < |s| && EqualsIgnoreCase(s[i], x)
    decreases |s|
  {
    if EqualsIgnoreCase(s[0], x) {
      i := 0;
    } else {
      var j := ContainsIgnoreCaseIndex(s[1..], x);
      i := j + 1;
    }
  }

  /** LINQ `Distinct(StringComparer.OrdinalIgnoreCase)`: keeps the first name of each
      case-insensitive class, in input order. */
  function DistinctIgnoreCase(s: seq<string>): (r: seq<string>)
    ensures DistinctFolds(r)
    ensures forall x :: x in r ==> x in s
    ensures forall x :: x in s ==> ContainsIgnoreCase(r, x)
    decreases |s|
  {
    if s == [] then []
    else
      var p := s[..|s| - 1];
      var d := DistinctIgnoreCase(p);
      var last := s[|s| - 1];
      assert s == p + [last];
      DistinctStep(p, d, last);
      if ContainsIgnoreCase(d, last) then d else d + [last]
  }

  /** One step of `Distinct`: the next name is kept exactly when no kept name equals it
      ignoring case. */
  lemma DistinctStep(p: seq<string>, d: seq<string>, last: string)
    requires DistinctFolds(d)
    requires forall x :: x in d ==> x in p
    requires forall x :: x in p ==> ContainsIgnoreCase(d, x)
    ensures var r := if ContainsIgnoreCase(d, last) then d else d + [last];
      && DistinctFolds(r)
      && (forall x :: x in r ==> x in p + [last])
      && (forall x :: x in p + [last] ==> ContainsIgnoreCase(r, x))
  {
    if !ContainsIgnoreCase(d, last) {
      var r := d + [last];
      forall i, j | 0 <= i < j < |r| ensures !EqualsIgnoreCase(r[i], r[j]) {
        if j == |d| && EqualsIgnoreCase(r[i], r[j]) {
          ContainsIgnoreCaseAt(d, last, i);
        }
      }
      forall x | x in p + [last] ensures ContainsIgnoreCase(r, x) {
        if x == last {
          ContainsIgnoreCaseAt(r, x, |d|);
        } else {
          assert x in p;
          var i := ContainsIgnoreCaseIndex(d, x);
          ContainsIgnoreCaseAt(r, x, i);
        }
      }
    }
  }

  /** Inserts `x` into a strictly sorted list that holds no name equal to it ignoring case. */
  function InsertIgnoreCase(x: string, s: seq<string>): (r: seq<string>)
    requires SortedIgnoreCase(s)
    requires !ContainsIgnoreCase(s, x)
    ensures SortedIgnoreCase(r)
    ensures multiset(r) == multiset(s) + multiset{x}
    decreases |s|
  {
    if s == [] then [x]
    else if LexLess(Fold(x), Fold(s[0])) then
      LessThanAll(x, s);
      ConsSorted(x, s);
      [x] + s
    else
      var rest := InsertIgnoreCase(x, s[1..]);
      InsertStepSorted(x, s, rest);
      assert s == [s[0]] + s[1..];
      [s[0]] + rest
  }

  lemma InsertStepSorted(x: string, s: seq<string>, rest: seq<string>)
    requires s != [] && SortedIgnoreCase(s) && !ContainsIgnoreCase(s, x)
    requires !LexLess(Fold(x), Fold(s[0]))
    requires SortedIgnoreCase(rest) && multiset(rest) == multiset(s[1..]) + multiset{x}
    ensures SortedIgnoreCase([s[0]] + rest)
  {
    LexLessTotal(Fold(x), Fold(s[0]));
    forall z | z in rest ensures LexLess(Fold(s[0]), Fold(z)) {
      assert z in multiset(rest);
      if z != x {
        assert z in multiset(s[1..]);
        var j :| 0 <= j < |s[1..]| && s[1..][j] == z;
        assert s[j + 1] == z;
      }
    }
    ConsSorted(s[0], rest);
  }

  /** A name that sorts before every element of a sorted list can head it. */
  lemma ConsSorted(y: string, rest: seq<string>)
    requires SortedIgnoreCase(rest)
    requires forall z :: z in rest ==> LexLess(Fold(y), Fold(z))
    ensures SortedIgnoreCase([y] + rest)
  {
    var r := [y] + rest;
    forall i, j | 0 <= i < j < |r| ensures LexLess(Fold(r[i]), Fold(r[j])) {
      if i == 0 {
        assert r[j] == rest[j - 1];
        assert r[j] in rest;
      } else {
        assert r[i] == rest[i - 1] && r[j] == rest[j - 1];
      }
    }
  }

  lemma LessThanAll(x: string, s: seq<string>)
    requires s != [] && SortedIgnoreCase(s)
    requires LexLess(Fold(x), Fold(s[0]))
    ensures forall j :: 0 <= j < |s| ==> LexLess(Fold(x), Fold(s[j]))
  {
    forall j | 0 < j < |s| ensures LexLess(Fold(x), Fold(s[j])) {
      LexLessTransitive(Fold(x), Fold(s[0]), Fold(s[j]));
    }
  }

  /** `OrderBy(name => name, StringComparer.OrdinalIgnoreCase)` on names that are already
      distinct ignoring case: an insertion sort, so the result is a strictly ascending
      permutation of the input. */
  function SortIgnoreCase(s: seq<string>): (r: seq<string>)
    requires DistinctFolds(s)
    ensures SortedIgnoreCase(r)
    ensures multiset(r) == multiset(s)
    decreases |s|
  {
    if s == [] then []
    else
      var rest := SortIgnoreCase(s[1..]);
      HeadNotInRest(s, rest);
      assert s == [s[0]] + s[1..];
      InsertIgnoreCase(s[0], rest)
  }

  /** In a list without case-insensitive repeats, the head has no equal in any
      rearrangement of the tail. */
  lemma HeadNotInRest(s: seq<string>, rest: seq<string>)
    requires s != [] && DistinctFolds(s)
    requires multiset(rest) == multiset(s[1..])
    ensures !ContainsIgnoreCase(rest, s[0])
  {
    forall i | 0 <= i < |rest| ensures !EqualsIgnoreCase(rest[i], s[0]) {
      assert rest[i] in multiset(rest);
      var j :| 0 <= j < |s[1..]| && s[1..][j] == rest[i];
      assert s[j + 1] == rest[i];
    }
    if ContainsIgnoreCase(rest, s[0]) {
      var i := ContainsIgnoreCaseIndex(rest, s[0]);
      assert false;
    }
  }
}
