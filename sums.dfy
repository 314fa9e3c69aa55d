/** Left-to-right sums of real numbers, as `reduce((total, x) => total + x, 0)` computes them. */
module Sums {

  function Sum(s: seq<real>): real
    decreases |s|
  {
    if s == [] then 0.0 else Sum(s[..|s| - 1]) + s[|s| - 1]
  }

  /** Adding one more element adds its value. */
  lemma SumSnoc(s: seq<real>, x: real)
    ensures Sum(s + [x]) == Sum(s) + x
  {
    assert (s + [x])[..|s|] == s;
  }

  /** Every element multiplied by `k`. */
  function Scaled(s: seq<real>, k: real): seq<real> {
    seq(|s|, i requires 0 <= i < |s| => k * s[i])
  }

  /** The sum of a concatenation is the sum of the sums. */
  lemma {:induction false} SumAppend(s: seq<real>, t: seq<real>)
    ensures Sum(s + t) == Sum(s) + Sum(t)
    decreases |t|
  {
    if t == [] {
      assert s + t == s;
    } else {
      assert (s + t)[..|s + t| - 1] == s + t[..|t| - 1];
      SumAppend(s, t[..|t| - 1]);
    }
  }

  /** Dropping the last element commutes with scaling. */
  lemma ScaledPrefix(s: seq<real>, k: real)
    requires s != []
    ensures Scaled(s, k)[..|s| - 1] == Scaled(s[..|s| - 1], k)
    ensures Scaled(s, k)[|s| - 1] == k * s[|s| - 1]
  {
    var init := s[..|s| - 1];
    forall i | 0 <= i < |init|
      ensures Scaled(s, k)[..|s| - 1][i] == Scaled(init, k)[i]
    {
      assert Scaled(s, k)[i] == k * s[i];
      assert Scaled(init, k)[i] == k * init[i];
    }
  }

  lemma Distribute(k: real, a: real, x: real)
    ensures k * (a + x) == k * a + k * x
  {
  }

  /** Scaling every element scales the sum. */
  lemma {:induction false} SumScaled(s: seq<real>, k: real)
    ensures Sum(Scaled(s, k)) == k * Sum(s)
    decreases |s|
  {
    if s != [] {
      var init := s[..|s| - 1];
      ScaledPrefix(s, k);
      SumScaled(init, k);
      assert Sum(Scaled(s, k)) == Sum(Scaled(init, k)) + k * s[|s| - 1];
      Distribute(k, Sum(init), s[|s| - 1]);
    }
  }

  /** A sum of non-negative numbers is non-negative. */
  lemma {:induction false} SumNonNegative(s: seq<real>)
    requires forall i :: 0 <= i < |s| ==> s[i] >= 0.0
    ensures Sum(s) >= 0.0
    decreases |s|
  {
    if s != [] {
      SumNonNegative(s[..|s| - 1]);
    }
  }
}
