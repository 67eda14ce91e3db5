/**
 * The elementwise array operations the calculators are built from, on
 * one-dimensional arrays: boolean masks and their `np.sum`, elementwise
 * difference, square and absolute value, and `np.mean`.
 */
module Vectors {
  import opened Base

  /** `np.sum` of a boolean array: how many entries are true. */
  function Count(m: seq<bool>): (n: nat)
    ensures n <= |m|
    ensures n == 0 <==> forall i :: 0 <= i < |m| ==> !m[i]
    ensures n == |m| <==> forall i :: 0 <= i < |m| ==> m[i]
  {
    if |m| == 0 then 0
    else
      var k := |m| - 1;
      assert forall i :: 0 <= i < k ==> m[..k][i] == m[i];
      Count(m[..k]) + (if m[k] then 1 else 0)
  }

  /** The positions at which a mask is true. */
  ghost function TrueIndices(m: seq<bool>): set<nat>
  {
    set i: nat | i < |m| && m[i]
  }

  /** Counting a mask counts exactly the positions where it holds. */
  lemma {:induction false} CountIsCardinality(m: seq<bool>)
    ensures Count(m) == |TrueIndices(m)|
  {
    if |m| > 0 {
      var k := |m| - 1;
      CountIsCardinality(m[..k]);
      assert TrueIndices(m) == TrueIndices(m[..k]) + (if m[k] then {k} else {});
    }
  }

  /** `a == b` on two arrays of one shape: the mask of equal positions. */
  function Equal<T(==)>(a: seq<T>, b: seq<T>): (m: seq<bool>)
    requires |a| == |b|
    ensures |m| == |a|
    ensures forall i :: 0 <= i < |m| ==> m[i] == (a[i] == b[i])
  {
    seq(|a|, i requires 0 <= i < |a| => a[i] == b[i])
  }

  /** `a - b` on two arrays of one shape. */
  function Sub(a: seq<real>, b: seq<real>): (d: seq<real>)
    requires |a| == |b|
    ensures |d| == |a|
    ensures forall i :: 0 <= i < |d| ==> d[i] == a[i] - b[i]
  {
    seq(|a|, i requires 0 <= i < |a| => a[i] - b[i])
  }

  function Square(x: real): real
  {
    x * x
  }

  function Abs(x: real): real
  {
    if x < 0.0 then -x else x
  }

  /** `s ** 2`, elementwise. */
  function Squares(s: seq<real>): (q: seq<real>)
    ensures |q| == |s|
    ensures forall i :: 0 <= i < |q| ==> q[i] == Square(s[i])
  {
    seq(|s|, i requires 0 <= i < |s| => Square(s[i]))
  }

  /** `np.abs(s)`, elementwise. */
  function Absolutes(s: seq<real>): (q: seq<real>)
    ensures |q| == |s|
    ensures forall i :: 0 <= i < |q| ==> q[i] == Abs(s[i])
  {
    seq(|s|, i requires 0 <= i < |s| => Abs(s[i]))
  }

  /** `np.sum` of a float array. */
  function Sum(s: seq<real>): real
  {
    if |s| == 0 then 0.0 else Sum(s[..|s| - 1]) + s[|s| - 1]
  }

  /**
   * Summing two parts and adding the results gives the sum of the whole, so
   * the order in which numpy groups the additions does not change the value.
   */
  lemma {:induction false} SumAppend(s: seq<real>, t: seq<real>)
    ensures Sum(s + t) == Sum(s) + Sum(t)
  {
    if |t| > 0 {
      var k := |t| - 1;
      SumAppend(s, t[..k]);
      assert (s + t)[..|s + t| - 1] == s + t[..k];
    } else {
      assert s + t == s;
    }
  }

  /** `np.mean`: the sum over the size, and NaN for an empty array. */
  function Mean(s: seq<real>): (r: Float)
    ensures r == NaN <==> |s| == 0
    ensures r.Finite? ==> r.val * |s| as real == Sum(s)
  {
    if |s| == 0 then NaN else Finite(Sum(s) / |s| as real)
  }

  /** A sum of non-negative terms is non-negative, and zero exactly when every term is. */
  lemma {:induction false} SumOfNonNegative(s: seq<real>)
    requires forall i :: 0 <= i < |s| ==> s[i] >= 0.0
    ensures Sum(s) >= 0.0
    ensures Sum(s) == 0.0 <==> forall i :: 0 <= i < |s| ==> s[i] == 0.0
  {
    if |s| > 0 {
      var k := |s| - 1;
      assert forall i :: 0 <= i < k ==> s[..k][i] == s[i];
      SumOfNonNegative(s[..k]);
    }
  }
}
