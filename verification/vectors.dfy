/** Sequence helpers shared by the index builder and the query scorer: the
    distinct elements of a token list (a Counter's key order), sums, sums of
    squares and the element-wise products that Python's zip produces. */
module Vectors {

  import opened Arith

  /** The distinct elements of `s`, each once, in order of first occurrence:
      the key order of a Counter built from `s`. */
  function Distinct<T(==, !new)>(s: seq<T>): (r: seq<T>)
    ensures forall x :: x in r <==> x in s
    ensures forall i, j :: 0 <= i < j < |r| ==> r[i] != r[j]
    decreases |s|
  {
    if |s| == 0 then []
    else
      var r := Distinct(s[..|s| - 1]);
      assert s == s[..|s| - 1] + [s[|s| - 1]];
      if s[|s| - 1] in r then r else r + [s[|s| - 1]]
  }

  /** The sum of the elements (Python's `sum`); over the reals the grouping
      of the additions does not matter. */
  function Sum(s: seq<real>): real
  {
    if |s| == 0 then 0.0 else s[0] + Sum(s[1..])
  }

  /** The sum of squares, i.e. the squared Euclidean norm: never negative,
      and zero when every element is zero. */
  function SumSq(s: seq<real>): (r: real)
    ensures 0.0 <= r
    ensures (forall i :: 0 <= i < |s| ==> s[i] == 0.0) ==> r == 0.0
  {
    if |s| == 0 then 0.0
    else
      SquareNonNegative(s[0]);
      assert forall i :: 1 <= i < |s| ==> s[i] == s[1..][i - 1];
      s[0] * s[0] + SumSq(s[1..])
  }

  /** `[x * y for x, y in zip(a, b)]`: zip stops at the shorter list. */
  function Products(a: seq<real>, b: seq<real>): (r: seq<real>)
    ensures |r| == if |a| <= |b| then |a| else |b|
  {
    var n := if |a| <= |b| then |a| else |b|;
    seq(n, i requires 0 <= i < n => a[i] * b[i])
  }

  /** The squared norm is zero only when every element is zero. */
  lemma {:induction false} SumSqZero(s: seq<real>)
    requires SumSq(s) == 0.0
    ensures forall i :: 0 <= i < |s| ==> s[i] == 0.0
  {
    if |s| > 0 {
      assert SumSq(s) == s[0] * s[0] + SumSq(s[1..]);
      SquareNonNegative(s[0]);
      SquareZero(s[0]);
      SumSqZero(s[1..]);
      assert forall i :: 1 <= i < |s| ==> s[i] == s[1..][i - 1];
    }
  }

  /** A sum of non-negative terms is non-negative. */
  lemma {:induction false} SumNonNegative(s: seq<real>)
    requires forall i :: 0 <= i < |s| ==> 0.0 <= s[i]
    ensures 0.0 <= Sum(s)
  {
    if |s| > 0 {
      assert forall i :: 0 <= i < |s[1..]| ==> s[1..][i] == s[i + 1];
      SumNonNegative(s[1..]);
    }
  }

  /** A sum of zeros is zero. */
  lemma {:induction false} SumZero(s: seq<real>)
    requires forall i :: 0 <= i < |s| ==> s[i] == 0.0
    ensures Sum(s) == 0.0
  {
    if |s| > 0 {
      assert forall i :: 0 <= i < |s[1..]| ==> s[1..][i] == s[i + 1];
      SumZero(s[1..]);
    }
  }

  /** The dot product of non-negative lists is non-negative. */
  lemma DotNonNegative(a: seq<real>, b: seq<real>)
    requires forall i :: 0 <= i < |a| ==> 0.0 <= a[i]
    requires forall i :: 0 <= i < |b| ==> 0.0 <= b[i]
    ensures 0.0 <= Sum(Products(a, b))
  {
    var p := Products(a, b);
    forall i | 0 <= i < |p|
      ensures 0.0 <= p[i]
    {
      ProductNonNegative(a[i], b[i]);
    }
    SumNonNegative(p);
  }

  /** The dot product with a list of zeros is zero. */
  lemma DotWithZeros(a: seq<real>, b: seq<real>)
    requires forall i :: 0 <= i < |b| ==> b[i] == 0.0
    ensures Sum(Products(a, b)) == 0.0
  {
    var p := Products(a, b);
    forall i | 0 <= i < |p|
      ensures p[i] == 0.0
    {
      ProductWithZero(a[i], b[i]);
    }
    SumZero(p);
  }
}
