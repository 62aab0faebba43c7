/**
 * Trading signals and the series that carry them.
 *
 * Every strategy writes a column whose values are 1 (buy), 0 (hold) or -1 (sell).
 * When the backtester stores a strategy's series into its own frame, pandas aligns
 * it by index, and a row that the series does not cover holds NaN: that is `Missing`.
 */
module Signals {

  datatype Signal = Buy | Hold | Sell | Missing

  /** The column value 1 / -1 / anything else, as a signal. */
  function FromCode(c: int): (s: Signal)
    ensures s == Buy <==> c == 1
    ensures s == Sell <==> c == -1
    ensures s != Missing
  {
    if c == 1 then Buy else if c == -1 then Sell else Hold
  }

  /** A prediction turned into a signal: 0 everywhere, then 1 where it is positive, then -1 where it is negative. */
  function FromPrediction(p: real): (s: Signal)
    ensures s == Buy <==> p > 0.0
    ensures s == Sell <==> p < 0.0
    ensures s == Hold <==> p == 0.0
  {
    var s0 := Hold;
    var s1 := if p > 0.0 then Buy else s0;
    if p < 0.0 then Sell else s1
  }

  /** A pandas Series of signals: row labels and values, side by side. */
  datatype Series = Series(index: seq<nat>, values: seq<Signal>)

  predicate WellFormed(s: Series) {
    |s.index| == |s.values|
  }

  /** The labels lo, lo + 1, ..., hi - 1. */
  function Range(lo: nat, hi: nat): (r: seq<nat>)
    ensures |r| == if lo <= hi then hi - lo else 0
    ensures forall k :: 0 <= k < |r| ==> r[k] == lo + k
  {
    seq(if lo <= hi then hi - lo else 0, k => lo + k)
  }

  /** A series labelled by every row of an n-row frame. */
  function Full(values: seq<Signal>): (s: Series)
    ensures WellFormed(s)
  {
    Series(Range(0, |values|), values)
  }

  /** The value stored under label t, or NaN when the series has no such label. */
  function Lookup(index: seq<nat>, values: seq<Signal>, t: nat): Signal
    requires |index| == |values|
  {
    if |index| == 0 then Missing
    else if index[0] == t then values[0]
    else Lookup(index[1..], values[1..], t)
  }

  /** Assigning a series to a column of an n-row frame labelled 0 .. n-1. */
  function Align(s: Series, n: nat): (r: seq<Signal>)
    requires WellFormed(s)
    ensures |r| == n
  {
    seq(n, t requires 0 <= t < n => Lookup(s.index, s.values, t))
  }

  lemma {:induction false} LookupRange(lo: nat, values: seq<Signal>, t: nat)
    ensures Lookup(Range(lo, lo + |values|), values, t)
            == if lo <= t < lo + |values| then values[t - lo] else Missing
    decreases |values|
  {
    var index := Range(lo, lo + |values|);
    if |values| > 0 {
      assert index[1..] == Range(lo + 1, lo + 1 + |values[1..]|);
      LookupRange(lo + 1, values[1..], t);
      if t != lo && lo <= t < lo + |values| {
        assert values[1..][t - (lo + 1)] == values[t - lo];
      }
    }
  }

  /**
   * A series labelled by the contiguous rows lo .. lo + |values| - 1 lands on exactly
   * those rows of the frame; every other row is NaN.
   */
  lemma AlignContiguous(lo: nat, values: seq<Signal>, n: nat)
    ensures var r := Align(Series(Range(lo, lo + |values|), values), n);
      forall t :: 0 <= t < n ==> r[t] == if lo <= t < lo + |values| then values[t - lo] else Missing
  {
    var r := Align(Series(Range(lo, lo + |values|), values), n);
    forall t | 0 <= t < n
      ensures r[t] == if lo <= t < lo + |values| then values[t - lo] else Missing
    {
      LookupRange(lo, values, t);
    }
  }

  /** A series that covers every row comes back unchanged, with no NaN. */
  lemma AlignFull(values: seq<Signal>)
    ensures Align(Full(values), |values|) == values
  {
    AlignContiguous(0, values, |values|);
  }
}
