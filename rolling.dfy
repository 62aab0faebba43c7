/** Rolling-window arithmetic shared by the indicator strategies. */
module Rolling {
  import opened Wrappers

  /** The sum of a sequence, peeled from the back. */
  function Sum(s: seq<real>): real
  {
    if |s| == 0 then 0.0 else Sum(s[..|s| - 1]) + s[|s| - 1]
  }

  /** A sum of n terms, each at least lo, is at least n * lo. */
  lemma {:induction false} SumAtLeast(s: seq<real>, lo: real)
    requires forall i :: 0 <= i < |s| ==> lo <= s[i]
    ensures |s| as real * lo <= Sum(s)
  {
    if |s| > 0 {
      SumAtLeast(s[..|s| - 1], lo);
    }
  }

  /** A sum of n terms, each at most hi, is at most n * hi. */
  lemma {:induction false} SumAtMost(s: seq<real>, hi: real)
    requires forall i :: 0 <= i < |s| ==> s[i] <= hi
    ensures Sum(s) <= |s| as real * hi
  {
    if |s| > 0 {
      SumAtMost(s[..|s| - 1], hi);
    }
  }

  /**
   * `rolling(window).mean()` at row t: NaN until `window` observations exist,
   * then the mean of the last `window` of them. A window of 0 holds no observation,
   * so its mean is NaN on every row.
   */
  function Mean(x: seq<real>, window: nat, t: nat): (m: Option<real>)
    requires t < |x|
    ensures m.Some? <==> window >= 1 && t + 1 >= window
  {
    if window == 0 || t + 1 < window then None else Some(Sum(x[t + 1 - window .. t + 1]) / window as real)
  }

  /** A rolling mean is at least any lower bound of the values in its window. */
  lemma MeanAtLeast(x: seq<real>, window: nat, t: nat, lo: real)
    requires window >= 1 && t < |x| && t + 1 >= window
    requires forall i :: t + 1 - window <= i <= t ==> lo <= x[i]
    ensures lo <= Mean(x, window, t).value
  {
    var w := x[t + 1 - window .. t + 1];
    SumAtLeast(w, lo);
    var n := window as real;
    assert Sum(w) / n * n == Sum(w);
  }

  /** A rolling mean is at most any upper bound of the values in its window. */
  lemma MeanAtMost(x: seq<real>, window: nat, t: nat, hi: real)
    requires window >= 1 && t < |x| && t + 1 >= window
    requires forall i :: t + 1 - window <= i <= t ==> x[i] <= hi
    ensures Mean(x, window, t).value <= hi
  {
    var w := x[t + 1 - window .. t + 1];
    SumAtMost(w, hi);
    var n := window as real;
    assert Sum(w) / n * n == Sum(w);
  }
}
