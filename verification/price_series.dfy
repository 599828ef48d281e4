/**
 * Aggregates over a column of closing prices: sum, minimum, maximum and
 * arithmetic mean, together with the bounds that relate them.
 */
module PriceSeries {

  /** Sum of a column, accumulated from the front (the last element is added last). */
  function Sum(s: seq<real>): (total: real)
  {
    if |s| == 0 then 0.0 else Sum(s[..|s| - 1]) + s[|s| - 1]
  }

  /** Smallest value of a non-empty column (pandas `Series.min`). */
  function Min(s: seq<real>): (m: real)
    requires |s| > 0
    ensures m in s
    ensures forall i :: 0 <= i < |s| ==> m <= s[i]
  {
    if |s| == 1 then s[0]
    else
      var rest := Min(s[..|s| - 1]);
      if s[|s| - 1] < rest then s[|s| - 1] else rest
  }

  /** Largest value of a non-empty column (pandas `Series.max`). */
  function Max(s: seq<real>): (m: real)
    requires |s| > 0
    ensures m in s
    ensures forall i :: 0 <= i < |s| ==> s[i] <= m
  {
    if |s| == 1 then s[0]
    else
      var rest := Max(s[..|s| - 1]);
      if rest < s[|s| - 1] then s[|s| - 1] else rest
  }

  /** Arithmetic mean of a non-empty column (pandas `Series.mean`). */
  function Mean(s: seq<real>): (avg: real)
    requires |s| > 0
  {
    Sum(s) / (|s| as real)
  }

  /** Every value of the column is `c`. */
  predicate Constant(s: seq<real>, c: real)
  {
    forall i :: 0 <= i < |s| ==> s[i] == c
  }

  /** All values of the column are equal to each other. */
  predicate Flat(s: seq<real>)
  {
    forall i, j :: 0 <= i < |s| && 0 <= j < |s| ==> s[i] == s[j]
  }

  lemma {:induction false} SumCons(x: real, s: seq<real>)
    ensures Sum([x] + s) == x + Sum(s)
    decreases |s|
  {
    if |s| == 0 {
      assert ([x] + s)[..0] == [];
    } else {
      var t := [x] + s;
      assert t[..|t| - 1] == [x] + s[..|s| - 1];
      SumCons(x, s[..|s| - 1]);
    }
  }

  /** Growing a slice by one element on the right adds that element. */
  lemma SumExtendRight(s: seq<real>, a: nat, b: nat)
    requires a <= b < |s|
    ensures Sum(s[a..b + 1]) == Sum(s[a..b]) + s[b]
  {
    assert s[a..b + 1][..b - a] == s[a..b];
  }

  /** Shrinking a slice by one element on the left removes that element. */
  lemma SumDropLeft(s: seq<real>, a: nat, b: nat)
    requires a < b <= |s|
    ensures Sum(s[a + 1..b]) == Sum(s[a..b]) - s[a]
  {
    assert s[a..b] == [s[a]] + s[a + 1..b];
    SumCons(s[a], s[a + 1..b]);
  }

  /** A column whose values lie in [lo, hi] has a sum between |s|·lo and |s|·hi. */
  lemma {:induction false} SumBounds(s: seq<real>, lo: real, hi: real)
    requires forall i :: 0 <= i < |s| ==> lo <= s[i] <= hi
    ensures (|s| as real) * lo <= Sum(s) <= (|s| as real) * hi
    decreases |s|
  {
    if |s| > 0 {
      var init := s[..|s| - 1];
      assert forall i :: 0 <= i < |init| ==> init[i] == s[i];
      SumBounds(init, lo, hi);
      assert (|s| as real) * lo == (|init| as real) * lo + lo;
      assert (|s| as real) * hi == (|init| as real) * hi + hi;
    }
  }

  /** The mean of a column whose values lie in [lo, hi] lies in [lo, hi]. */
  lemma MeanBounds(s: seq<real>, lo: real, hi: real)
    requires |s| > 0
    requires forall i :: 0 <= i < |s| ==> lo <= s[i] <= hi
    ensures lo <= Mean(s) <= hi
  {
    var n := |s| as real;
    SumBounds(s, lo, hi);
    DivideBounds(Sum(s), n, lo, hi);
  }

  lemma DivideBounds(total: real, n: real, lo: real, hi: real)
    requires n > 0.0
    requires n * lo <= total <= n * hi
    ensures lo <= total / n <= hi
  {
    assert total == n * (total / n);
  }

  /** The mean of a non-empty column lies between its minimum and its maximum. */
  lemma MeanWithinMinMax(s: seq<real>)
    requires |s| > 0
    ensures Min(s) <= Mean(s) <= Max(s)
  {
    MeanBounds(s, Min(s), Max(s));
  }

  /** The mean of a constant column is that constant. */
  lemma MeanOfConstant(s: seq<real>, c: real)
    requires |s| > 0
    requires Constant(s, c)
    ensures Mean(s) == c
  {
    MeanBounds(s, c, c);
  }

  /** A column is flat exactly when its minimum equals its maximum. */
  lemma FlatIffMinEqualsMax(s: seq<real>)
    requires |s| > 0
    ensures Flat(s) <==> Min(s) == Max(s)
  {
    if Min(s) == Max(s) {
      forall i, j | 0 <= i < |s| && 0 <= j < |s|
        ensures s[i] == s[j]
      {
        assert Min(s) <= s[i] <= Max(s);
        assert Min(s) <= s[j] <= Max(s);
      }
    }
    if Flat(s) {
      var k :| 0 <= k < |s| && s[k] == Min(s);
      var l :| 0 <= l < |s| && s[l] == Max(s);
      assert s[k] == s[l];
    }
  }
}
