/** Extremes, sums and sorting of sequences. */
module Sequences {
  function Max(a: int, b: int): int {
    if a >= b then a else b
  }

  function MinOf(s: seq<int>): (m: int)
    requires |s| > 0
    ensures m in s && forall x :: x in s ==> m <= x
  {
    if |s| == 1 then s[0]
    else
      assert s == [s[0]] + s[1..];
      var rest := MinOf(s[1..]);
      if s[0] <= rest then s[0] else rest
  }

  function MaxOf(s: seq<int>): (m: int)
    requires |s| > 0
    ensures m in s && forall x :: x in s ==> x <= m
  {
    if |s| == 1 then s[0]
    else
      assert s == [s[0]] + s[1..];
      var rest := MaxOf(s[1..]);
      if s[0] >= rest then s[0] else rest
  }

  function Mapped<T, U>(s: seq<T>, f: T --> U): (r: seq<U>)
    requires forall i :: 0 <= i < |s| ==> f.requires(s[i])
    ensures |r| == |s| && forall i :: 0 <= i < |s| ==> r[i] == f(s[i])
  {
    seq(|s|, i requires 0 <= i < |s| && f.requires(s[i]) => f(s[i]))
  }

  predicate Descending<T>(s: seq<T>, key: T -> real) {
    forall i, j :: 0 <= i < j < |s| ==> key(s[i]) >= key(s[j])
  }

  /** `x` placed before the first element whose key is not larger. */
  function Placed<T>(x: T, s: seq<T>, key: T -> real): (r: seq<T>)
    requires Descending(s, key)
    ensures Descending(r, key) && |r| == |s| + 1
    ensures multiset(r) == multiset(s) + multiset{x}
  {
    if s == [] || key(s[0]) <= key(x) then [x] + s
    else
      var rest := Placed(x, s[1..], key);
      assert s == [s[0]] + s[1..];
      StaysFirst(x, s, rest, key);
      [s[0]] + rest
  }

  lemma StaysFirst<T>(x: T, s: seq<T>, rest: seq<T>, key: T -> real)
    requires s != [] && Descending(s, key) && key(x) <= key(s[0]) && Descending(rest, key)
    requires multiset(rest) == multiset(s[1..]) + multiset{x}
    ensures Descending([s[0]] + rest, key)
  {
    forall i | 0 <= i < |rest| ensures key(rest[i]) <= key(s[0]) {
      assert rest[i] in multiset(rest);
      if rest[i] != x {
        assert rest[i] in s[1..];
      }
    }
  }

  /** The elements in non-increasing key order; equal keys keep their order. */
  function SortedDescending<T>(s: seq<T>, key: T -> real): (r: seq<T>)
    ensures Descending(r, key) && multiset(r) == multiset(s)
    ensures |r| == |s|
  {
    if s == [] then []
    else
      assert s == [s[0]] + s[1..];
      Placed(s[0], SortedDescending(s[1..], key), key)
  }

  lemma {:induction false} SortedStays<T>(s: seq<T>, key: T -> real)
    requires Descending(s, key)
    ensures SortedDescending(s, key) == s
  {
    if s != [] {
      SortedStays(s[1..], key);
      assert s == [s[0]] + s[1..];
    }
  }

  lemma SortKeepsMembers<T>(s: seq<T>, key: T -> real)
    ensures forall x :: x in SortedDescending(s, key) <==> x in s
  {
    forall x ensures x in SortedDescending(s, key) <==> x in s {
      assert x in multiset(SortedDescending(s, key)) <==> x in multiset(s);
    }
  }

  /** Rounding toward zero, as converting a float to an integer does. */
  function Truncated(r: real): int {
    if r >= 0.0 then r.Floor else -(-r).Floor
  }

  /** `x` times `factor`, rounded toward zero. */
  function Scaled(x: real, factor: real): int {
    Truncated(x * factor)
  }

  lemma ScaledIs(x: real, factor: real)
    ensures x * factor >= 0.0 ==> Scaled(x, factor) as real <= x * factor < Scaled(x, factor) as real + 1.0
    ensures x * factor < 1.0 ==> Scaled(x, factor) <= 0
  {
  }

  lemma TruncatedIs(r: real)
    ensures r >= 0.0 ==> Truncated(r) as real <= r < Truncated(r) as real + 1.0
    ensures r < 1.0 ==> Truncated(r) <= 0
  {
  }

  lemma ScaledBounds(x: real, factor: real)
    requires x >= 0.0
    ensures factor <= 1.0 && Scaled(x, factor) > 0 ==> Scaled(x, factor) as real <= x
    ensures factor >= 1.0 ==> x < Scaled(x, factor) as real + 1.0
    ensures x * factor < Scaled(x, factor) as real + 1.0
  {
    if factor >= 1.0 {
      assert x * factor == x + x * (factor - 1.0) && x * (factor - 1.0) >= 0.0;
    } else {
      assert x * factor == x - x * (1.0 - factor) && x * (1.0 - factor) >= 0.0;
    }
  }

  predicate Distinct<T(==)>(s: seq<T>) {
    forall i, j :: 0 <= i < j < |s| ==> s[i] != s[j]
  }

  lemma {:induction false} DistinctOccursOnce<T>(s: seq<T>, x: T)
    requires Distinct(s)
    ensures multiset(s)[x] <= 1
  {
    if s != [] {
      assert s == [s[0]] + s[1..];
      DistinctOccursOnce(s[1..], x);
      assert s[0] !in s[1..];
    }
  }

  lemma PermutationDistinct<T>(s: seq<T>, r: seq<T>)
    requires Distinct(s) && multiset(r) == multiset(s)
    ensures Distinct(r)
  {
    forall i, j | 0 <= i < j < |r| ensures r[i] != r[j] {
      DistinctOccursOnce(s, r[i]);
      assert r == r[..j] + r[j..];
      assert r[i] in r[..j] && r[j] in r[j..];
    }
  }

  function Sum(s: seq<real>): real {
    if s == [] then 0.0 else s[0] + Sum(s[1..])
  }

  function Mean(s: seq<real>): real
    requires |s| > 0
  {
    Sum(s) / |s| as real
  }

  lemma MeanTimesCount(s: seq<real>)
    requires |s| > 0
    ensures Mean(s) * |s| as real == Sum(s)
  {
    hide Sum;
  }

  lemma CeilingBounds(r: real)
    ensures r <= Ceiling(r) as real < r + 1.0
  {
  }

  function Ceiling(r: real): int {
    -(-r).Floor
  }

  function Largest(s: seq<real>): (m: real)
    requires |s| > 0
    ensures m in s && forall x :: x in s ==> x <= m
  {
    if |s| == 1 then s[0]
    else
      assert s == [s[0]] + s[1..];
      var rest := Largest(s[1..]);
      if s[0] >= rest then s[0] else rest
  }

  function Smallest(s: seq<real>): (m: real)
    requires |s| > 0
    ensures m in s && forall x :: x in s ==> m <= x
  {
    if |s| == 1 then s[0]
    else
      assert s == [s[0]] + s[1..];
      var rest := Smallest(s[1..]);
      if s[0] <= rest then s[0] else rest
  }

  lemma {:induction false} SumAppend(s: seq<real>, x: real)
    ensures Sum(s + [x]) == Sum(s) + x
  {
    if s == [] {
      assert [] + [x] == [x];
    } else {
      assert (s + [x])[1..] == s[1..] + [x];
      SumAppend(s[1..], x);
    }
  }
}
