/**
 * MACD crossover strategy (strategies/macd_strategy.py).
 *
 * Both price EMAs and the signal line use the unadjusted recursion
 * e[0] = x[0], e[t] = alpha * x[t] + (1 - alpha) * e[t - 1], alpha = 2 / (span + 1).
 */
module MacdStrategy {
  import opened Signals

  const DefaultFastPeriod: nat := 4
  const DefaultSlowPeriod: nat := 8
  const DefaultSignalPeriod: nat := 2

  /** The smoothing factor of `ewm(span=...)`. */
  function Alpha(span: nat): (a: real)
    requires span >= 1
    ensures 0.0 < a <= 1.0
  {
    2.0 / (span as real + 1.0)
  }

  /** `ewm(span, adjust=False).mean()`, built row by row. */
  function Ema(x: seq<real>, alpha: real): (e: seq<real>)
    ensures |e| == |x|
  {
    if |x| == 0 then []
    else if |x| == 1 then [x[0]]
    else
      var previous := Ema(x[..|x| - 1], alpha);
      previous + [alpha * x[|x| - 1] + (1.0 - alpha) * previous[|previous| - 1]]
  }

  /** The EMA of a prefix is the prefix of the EMA: later rows never change earlier ones. */
  lemma {:induction false} EmaPrefix(x: seq<real>, alpha: real, k: nat)
    requires k <= |x|
    ensures Ema(x[..k], alpha) == Ema(x, alpha)[..k]
    decreases |x|
  {
    if k < |x| {
      assert x[..|x| - 1][..k] == x[..k];
      EmaPrefix(x[..|x| - 1], alpha, k);
    } else {
      assert x[..k] == x;
    }
  }

  /** The last row of the EMA from the row before it. */
  lemma EmaLast(x: seq<real>, alpha: real)
    requires |x| >= 2
    ensures Ema(x, alpha)[|x| - 1] == alpha * x[|x| - 1] + (1.0 - alpha) * Ema(x[..|x| - 1], alpha)[|x| - 2]
  {
  }

  /** The recursion the EMA obeys on every row. */
  lemma EmaRecurrence(x: seq<real>, alpha: real, t: nat)
    requires t < |x|
    ensures t == 0 ==> Ema(x, alpha)[0] == x[0]
    ensures t > 0 ==> Ema(x, alpha)[t] == alpha * x[t] + (1.0 - alpha) * Ema(x, alpha)[t - 1]
  {
    var e := Ema(x, alpha);
    var q := x[..t + 1];
    EmaPrefix(x, alpha, t + 1);
    assert Ema(q, alpha)[t] == e[t];
    if t == 0 {
      assert Ema(q, alpha) == [x[0]];
    } else {
      assert q[..|q| - 1] == x[..t];
      EmaPrefix(x, alpha, t);
      var previous := Ema(x[..t], alpha);
      assert previous[t - 1] == e[t - 1];
      EmaLast(q, alpha);
    }
  }

  /** A convex combination of two values within [lo, hi] stays within [lo, hi]. */
  lemma Convex(alpha: real, u: real, v: real, lo: real, hi: real)
    requires 0.0 < alpha <= 1.0 && lo <= u <= hi && lo <= v <= hi
    ensures lo <= alpha * u + (1.0 - alpha) * v <= hi
  {
    var beta := 1.0 - alpha;
    assert alpha * (u - lo) >= 0.0;
    assert beta * (v - lo) >= 0.0;
    assert alpha * (hi - u) >= 0.0;
    assert beta * (hi - v) >= 0.0;
  }

  /** A convex recursion: each EMA value lies within the bounds of the inputs seen so far. */
  lemma {:induction false} EmaWithin(x: seq<real>, alpha: real, t: nat, lo: real, hi: real)
    requires 0.0 < alpha <= 1.0 && t < |x|
    requires forall i :: 0 <= i <= t ==> lo <= x[i] <= hi
    ensures lo <= Ema(x, alpha)[t] <= hi
  {
    EmaRecurrence(x, alpha, t);
    if t > 0 {
      EmaWithin(x, alpha, t - 1, lo, hi);
      Convex(alpha, x[t], Ema(x, alpha)[t - 1], lo, hi);
    }
  }

  /** The three MACD columns. */
  datatype Lines = Lines(macd: seq<real>, signal: seq<real>, histogram: seq<real>)

  function Indicators(closes: seq<real>, fastPeriod: nat, slowPeriod: nat, signalPeriod: nat): (l: Lines)
    requires fastPeriod >= 1 && slowPeriod >= 1 && signalPeriod >= 1
    ensures |l.macd| == |l.signal| == |l.histogram| == |closes|
  {
    var fast := Ema(closes, Alpha(fastPeriod));
    var slow := Ema(closes, Alpha(slowPeriod));
    var macd := seq(|closes|, t requires 0 <= t < |closes| => fast[t] - slow[t]);
    var signal := Ema(macd, Alpha(signalPeriod));
    Lines(macd, signal, seq(|closes|, t requires 0 <= t < |closes| => macd[t] - signal[t]))
  }

  /** Both price EMAs start at the first close, so every column starts at 0. */
  lemma IndicatorsStartAtZero(closes: seq<real>, fastPeriod: nat, slowPeriod: nat, signalPeriod: nat)
    requires fastPeriod >= 1 && slowPeriod >= 1 && signalPeriod >= 1 && |closes| > 0
    ensures var l := Indicators(closes, fastPeriod, slowPeriod, signalPeriod);
      l.macd[0] == 0.0 && l.signal[0] == 0.0 && l.histogram[0] == 0.0
  {
    var l := Indicators(closes, fastPeriod, slowPeriod, signalPeriod);
    EmaRecurrence(closes, Alpha(fastPeriod), 0);
    EmaRecurrence(closes, Alpha(slowPeriod), 0);
    EmaRecurrence(l.macd, Alpha(signalPeriod), 0);
  }

  /** The MACD line of a series of closes within [lo, hi] lies within [lo - hi, hi - lo]. */
  lemma MacdWithin(closes: seq<real>, fastPeriod: nat, slowPeriod: nat, signalPeriod: nat, lo: real, hi: real, t: nat)
    requires fastPeriod >= 1 && slowPeriod >= 1 && signalPeriod >= 1 && t < |closes|
    requires forall i :: 0 <= i <= t ==> lo <= closes[i] <= hi
    ensures var l := Indicators(closes, fastPeriod, slowPeriod, signalPeriod);
      lo - hi <= l.macd[t] <= hi - lo
  {
    EmaWithin(closes, Alpha(fastPeriod), t, lo, hi);
    EmaWithin(closes, Alpha(slowPeriod), t, lo, hi);
  }

  /** Buy test: MACD above the signal line now, and the PREVIOUS MACD at or below the CURRENT signal value. */
  predicate CrossesAbove(macd: seq<real>, signal: seq<real>, t: nat)
    requires t < |macd| == |signal|
  {
    t > 0 && macd[t] > signal[t] && macd[t - 1] <= signal[t]
  }

  /** Sell test: MACD below the signal line now, and the PREVIOUS MACD at or above the CURRENT signal value. */
  predicate CrossesBelow(macd: seq<real>, signal: seq<real>, t: nat)
    requires t < |macd| == |signal|
  {
    t > 0 && macd[t] < signal[t] && macd[t - 1] >= signal[t]
  }

  /** 0 everywhere, then 1 on upward crossings, then -1 on downward ones (row 0 compares with NaN and fails). */
  function CrossSignal(macd: seq<real>, signal: seq<real>, t: nat): Signal
    requires t < |macd| == |signal|
  {
    var s0 := Hold;
    var s1 := if CrossesAbove(macd, signal, t) then Buy else s0;
    if CrossesBelow(macd, signal, t) then Sell else s1
  }

  function CrossSignals(macd: seq<real>, signal: seq<real>): (s: seq<Signal>)
    requires |macd| == |signal|
    ensures |s| == |macd|
  {
    seq(|macd|, t requires 0 <= t < |macd| => CrossSignal(macd, signal, t))
  }

  /** `generate_signals`. */
  function GenerateSignals(closes: seq<real>, fastPeriod: nat, slowPeriod: nat, signalPeriod: nat): (s: seq<Signal>)
    requires fastPeriod >= 1 && slowPeriod >= 1 && signalPeriod >= 1
    ensures |s| == |closes|
  {
    var l := Indicators(closes, fastPeriod, slowPeriod, signalPeriod);
    CrossSignals(l.macd, l.signal)
  }

  /** Buy exactly on an upward crossing, Sell exactly on a downward one; the two never coincide and row 0 is Hold. */
  lemma SignalIsCrossing(macd: seq<real>, signal: seq<real>, t: nat)
    requires t < |macd| == |signal|
    ensures CrossSignals(macd, signal)[t] == Buy <==> CrossesAbove(macd, signal, t)
    ensures CrossSignals(macd, signal)[t] == Sell <==> CrossesBelow(macd, signal, t)
    ensures !(CrossesAbove(macd, signal, t) && CrossesBelow(macd, signal, t))
    ensures t == 0 ==> CrossSignals(macd, signal)[t] == Hold
  {
  }

  /**
   * The comparison uses the current signal value, so a Buy can repeat on consecutive rows:
   * the MACD line 0, 2, 3 with its own span-2 signal line 0, 4/3, 22/9 (both starting at 0,
   * as every MACD pair does) gives a Buy on row 1 and again on row 2, although MACD was
   * already above the signal line on row 1.
   */
  lemma CurrentSignalComparison()
    ensures Ema([0.0, 2.0, 3.0], Alpha(DefaultSignalPeriod)) == [0.0, 4.0 / 3.0, 22.0 / 9.0]
    ensures CrossSignals([0.0, 2.0, 3.0], [0.0, 4.0 / 3.0, 22.0 / 9.0]) == [Hold, Buy, Buy]
  {
    var macd := [0.0, 2.0, 3.0];
    assert Alpha(DefaultSignalPeriod) == 2.0 / 3.0;
    assert macd[..1] == [0.0] && macd[..2] == [0.0, 2.0];
    assert Ema(macd[..2], 2.0 / 3.0) == [0.0, 4.0 / 3.0] by {
      assert macd[..2][..1] == [0.0];
    }
    var s := CrossSignals(macd, [0.0, 4.0 / 3.0, 22.0 / 9.0]);
    assert s[0] == Hold && s[1] == Buy && s[2] == Buy;
  }
}
