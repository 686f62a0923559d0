/** Sequence helpers shared by the server's message log and the client's local history. */
module Seqs {

  function Min(a: int, b: int): int { if a < b then a else b }

  /** No element occurs twice. */
  predicate NoDuplicates<T(==)>(s: seq<T>) {
    forall i, j :: 0 <= i < j < |s| ==> s[i] != s[j]
  }

  /** The last `n` elements of `s` (all of `s` when it is shorter): a bounded window
      that has dropped its oldest entries. */
  function LastN<T>(s: seq<T>, n: nat): (r: seq<T>)
    ensures |r| == Min(|s|, n)
    ensures forall k :: 0 <= k < |r| ==> r[k] == s[|s| - |r| + k]
  {
    if |s| <= n then s else s[|s| - n..]
  }

  /** Trimming a window before or after an append gives the same window:
      the bounded log only ever needs the last `n` arrivals. */
  lemma {:induction false} LastNAppend<T>(s: seq<T>, x: T, n: nat)
    ensures LastN(LastN(s, n) + [x], n) == LastN(s + [x], n)
  {
    var w := LastN(s, n);
    var a := LastN(w + [x], n);
    var b := LastN(s + [x], n);
    assert |a| == |b|;
    forall k | 0 <= k < |a| ensures a[k] == b[k] {
      if k == |a| - 1 {
      } else {
        assert a[k] == (w + [x])[|w| + 1 - |a| + k];
        assert b[k] == (s + [x])[|s| + 1 - |b| + k];
      }
    }
  }

  /** The newest element is never evicted from a non-empty window. */
  lemma LastNKeepsLast<T>(s: seq<T>, x: T, n: nat)
    requires n > 0
    ensures |LastN(s + [x], n)| > 0
    ensures LastN(s + [x], n)[|LastN(s + [x], n)| - 1] == x
  {
  }

  /** Below capacity nothing is evicted. */
  lemma LastNBelowCapacity<T>(s: seq<T>, n: nat)
    requires |s| <= n
    ensures LastN(s, n) == s
  {
  }

  /** A window of a duplicate-free sequence is duplicate-free. */
  lemma LastNNoDuplicates<T>(s: seq<T>, n: nat)
    requires NoDuplicates(s)
    ensures NoDuplicates(LastN(s, n))
  {
  }

  /** Every element of a window is an element of the whole. */
  lemma LastNSubset<T>(s: seq<T>, n: nat, x: T)
    requires x in LastN(s, n)
    ensures x in s
  {
    if |s| > n {
      assert LastN(s, n) == s[|s| - n..];
    }
  }

  /** `s` with every occurrence of `x` removed, the rest in their original order
      (`s.filter(y => y !== x)`). */
  function Without<T(==)>(s: seq<T>, x: T): (r: seq<T>)
    ensures forall i :: 0 <= i < |r| ==> r[i] in s && r[i] != x
    ensures forall i :: 0 <= i < |s| && s[i] != x ==> s[i] in r
    ensures NoDuplicates(s) ==> NoDuplicates(r)
  {
    if s == [] then []
    else if s[0] == x then Without(s[1..], x)
    else
      var rest := Without(s[1..], x);
      assert NoDuplicates(s) ==> s[0] !in s[1..] && NoDuplicates(s[1..]);
      [s[0]] + rest
  }

  /** The filter keeps every other element with its multiplicity and drops every copy
      of `x`. */
  lemma {:induction false} WithoutMultiset<T>(s: seq<T>, x: T)
    ensures multiset(Without(s, x)) == multiset(s)[x := 0]
  {
    if s != [] {
      assert s == [s[0]] + s[1..];
      WithoutMultiset(s[1..], x);
    }
  }

  /** Filtering distributes over concatenation, so the survivors keep their order. */
  lemma {:induction false} WithoutAppend<T>(a: seq<T>, b: seq<T>, x: T)
    ensures Without(a + b, x) == Without(a, x) + Without(b, x)
  {
    if a != [] {
      assert (a + b)[1..] == a[1..] + b;
      WithoutAppend(a[1..], b, x);
    } else {
      assert a + b == b;
    }
  }

  /** Nothing survives the filter exactly when every element is the removed one. */
  lemma WithoutEmpty<T>(s: seq<T>, x: T)
    ensures Without(s, x) == [] <==> forall i :: 0 <= i < |s| ==> s[i] == x
  {
    if Without(s, x) != [] {
      var k := WithoutHead(s, x);
    }
  }

  /** The first element left by `Without` is the first element of `s` other than `x`,
      and only copies of `x` come before it. */
  lemma {:induction false} WithoutHead<T>(s: seq<T>, x: T) returns (k: nat)
    requires Without(s, x) != []
    ensures k < |s| && s[k] == Without(s, x)[0] && s[k] != x
    ensures forall j :: 0 <= j < k ==> s[j] == x
  {
    if s[0] == x {
      var k' := WithoutHead(s[1..], x);
      k := k' + 1;
    } else {
      k := 0;
    }
  }

  /** Removing an element that does not occur changes nothing. */
  lemma {:induction false} WithoutAbsent<T>(s: seq<T>, x: T)
    requires x !in s
    ensures Without(s, x) == s
  {
    if s != [] {
      assert s[0] != x && x !in s[1..];
      WithoutAbsent(s[1..], x);
      assert Without(s, x) == [s[0]] + Without(s[1..], x);
      assert s == [s[0]] + s[1..];
    }
  }
}
