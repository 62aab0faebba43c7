/**
 * RSI threshold strategy (strategies/rsi_strategy.py).
 *
 * Gains and losses are the positive and negative parts of the close-to-close change
 * (row 0, which has no change, counts as 0 in both); their rolling means give the RSI,
 * and a signal fires on the row where RSI enters the oversold or overbought region.
 */
module RsiStrategy {
  import opened Wrappers
  import opened Signals
  import Rolling

  const DefaultPeriod: nat := 6
  const DefaultOverbought: real := 70.0
  const DefaultOversold: real := 30.0

  /** The stand-in denominator 1e-10 used where the average loss is exactly 0. */
  const Epsilon: real := 0.0000000001

  /** `delta.where(delta > 0, 0)`: the NaN change of row 0 fails the test and becomes 0. */
  function Gain(closes: seq<real>, t: nat): (g: real)
    requires t < |closes|
    ensures g >= 0.0 && (t == 0 ==> g == 0.0)
  {
    if t == 0 then 0.0
    else var d := closes[t] - closes[t - 1]; if d > 0.0 then d else 0.0
  }

  /** `-delta.where(delta < 0, 0)`. */
  function Loss(closes: seq<real>, t: nat): (l: real)
    requires t < |closes|
    ensures l >= 0.0 && (t == 0 ==> l == 0.0)
  {
    if t == 0 then 0.0
    else var d := closes[t] - closes[t - 1]; if d < 0.0 then -d else 0.0
  }

  function Gains(closes: seq<real>): (g: seq<real>)
    ensures |g| == |closes|
    ensures forall t :: 0 <= t < |g| ==> g[t] >= 0.0
  {
    seq(|closes|, t requires 0 <= t < |closes| => Gain(closes, t))
  }

  function Losses(closes: seq<real>): (l: seq<real>)
    ensures |l| == |closes|
    ensures forall t :: 0 <= t < |l| ==> l[t] >= 0.0
  {
    seq(|closes|, t requires 0 <= t < |closes| => Loss(closes, t))
  }

  /** Gain and loss split each change: their difference is the change and one of them is 0. */
  lemma GainLossSplit(closes: seq<real>, t: nat)
    requires t < |closes|
    ensures t == 0 ==> Gain(closes, t) == 0.0 && Loss(closes, t) == 0.0
    ensures t > 0 ==> Gain(closes, t) - Loss(closes, t) == closes[t] - closes[t - 1]
    ensures Gain(closes, t) >= 0.0 && Loss(closes, t) >= 0.0
    ensures Gain(closes, t) == 0.0 || Loss(closes, t) == 0.0
  {
  }

  /** RSI from the two averages, with a zero average loss replaced by Epsilon. */
  function Index(gain: real, loss: real): (r: real)
    requires gain >= 0.0 && loss >= 0.0
    ensures 0.0 <= r < 100.0
    ensures r == 0.0 <==> gain == 0.0
  {
    var denominator := if loss != 0.0 then loss else Epsilon;
    var rs := gain / denominator;
    assert rs >= 0.0 && (rs == 0.0 <==> gain == 0.0);
    QuotientBelow(100.0, 1.0 + rs);
    100.0 - 100.0 / (1.0 + rs)
  }

  /** For a positive numerator a and a divisor b of at least 1: 0 < a / b <= a, and a / b == a only for b == 1. */
  lemma QuotientBelow(a: real, b: real)
    requires a > 0.0 && b >= 1.0
    ensures 0.0 < a / b <= a
    ensures a / b == a <==> b == 1.0
  {
    assert a / b * b == a;
  }

  /** The RSI column: NaN until `period` rows exist, and everywhere for a period of 0. */
  function Rsi(closes: seq<real>, period: nat, t: nat): (r: Option<real>)
    requires t < |closes|
    ensures r.Some? ==> 0.0 <= r.value < 100.0
  {
    match (Rolling.Mean(Gains(closes), period, t), Rolling.Mean(Losses(closes), period, t))
    case (Some(g), Some(l)) =>
      Rolling.MeanAtLeast(Gains(closes), period, t, 0.0);
      Rolling.MeanAtLeast(Losses(closes), period, t, 0.0);
      Some(Index(g, l))
    case _ => None
  }

  function RsiSeries(closes: seq<real>, period: nat): (r: seq<Option<real>>)
    ensures |r| == |closes|
    ensures forall t :: 0 <= t < |r| && r[t].Some? ==> 0.0 <= r[t].value < 100.0
  {
    seq(|closes|, t requires 0 <= t < |closes| => Rsi(closes, period, t))
  }

  /** Buy test of row t: RSI below `oversold` now, at or above it on the row before; NaN fails. */
  predicate EntersOversold(rsi: seq<Option<real>>, oversold: real, t: nat)
    requires t < |rsi|
  {
    t > 0 && rsi[t].Some? && rsi[t - 1].Some? && rsi[t].value < oversold && rsi[t - 1].value >= oversold
  }

  /** Sell test of row t: RSI above `overbought` now, at or below it on the row before; NaN fails. */
  predicate EntersOverbought(rsi: seq<Option<real>>, overbought: real, t: nat)
    requires t < |rsi|
  {
    t > 0 && rsi[t].Some? && rsi[t - 1].Some? && rsi[t].value > overbought && rsi[t - 1].value <= overbought
  }

  /** 0 everywhere, then 1 where RSI enters oversold, then -1 where it enters overbought. */
  function ThresholdSignal(rsi: seq<Option<real>>, overbought: real, oversold: real, t: nat): Signal
    requires t < |rsi|
  {
    var s0 := Hold;
    var s1 := if EntersOversold(rsi, oversold, t) then Buy else s0;
    if EntersOverbought(rsi, overbought, t) then Sell else s1
  }

  function ThresholdSignals(rsi: seq<Option<real>>, overbought: real, oversold: real): (s: seq<Signal>)
    ensures |s| == |rsi|
  {
    seq(|rsi|, t requires 0 <= t < |rsi| => ThresholdSignal(rsi, overbought, oversold, t))
  }

  /** `generate_signals`. */
  function GenerateSignals(closes: seq<real>, period: nat, overbought: real, oversold: real): (s: seq<Signal>)
    ensures |s| == |closes|
  {
    ThresholdSignals(RsiSeries(closes, period), overbought, oversold)
  }

  /** RSI is defined exactly from row period - 1 on (never for a period of 0), and then lies in [0, 100). */
  lemma RsiRange(closes: seq<real>, period: nat, t: nat)
    requires t < |closes|
    ensures Rsi(closes, period, t).Some? <==> period >= 1 && t + 1 >= period
    ensures Rsi(closes, period, t).Some? ==> 0.0 <= Rsi(closes, period, t).value < 100.0
  {
  }

  /** A window with no rise has zero average gain, and its RSI is 0, whatever the losses. */
  lemma NoGainMeansZero(closes: seq<real>, period: nat, t: nat)
    requires period >= 1 && t < |closes| && t + 1 >= period
    requires forall j :: t + 1 - period <= j <= t ==> Gain(closes, j) == 0.0
    ensures Rsi(closes, period, t) == Some(0.0)
  {
    var g := Gains(closes);
    Rolling.MeanAtMost(g, period, t, 0.0);
    Rolling.MeanAtLeast(g, period, t, 0.0);
    Rolling.MeanAtLeast(Losses(closes), period, t, 0.0);
    assert Rolling.Mean(g, period, t) == Some(0.0);
  }

  /**
   * A signal needs RSI on both the row and the row before, so none occurs before row `period`,
   * nor anywhere for a period of 0.
   */
  lemma NoSignalBeforePeriod(closes: seq<real>, period: nat, overbought: real, oversold: real, t: nat)
    requires t < |closes| && (period == 0 || t < period)
    ensures GenerateSignals(closes, period, overbought, oversold)[t] == Hold
  {
    if t > 0 {
      RsiRange(closes, period, t - 1);
    }
  }

  /** Buy exactly on entry into oversold (unless the same row also enters overbought); Sell exactly on entry into overbought. */
  lemma SignalIsEntry(rsi: seq<Option<real>>, overbought: real, oversold: real, t: nat)
    requires t < |rsi|
    ensures ThresholdSignals(rsi, overbought, oversold)[t] == Sell <==> EntersOverbought(rsi, overbought, t)
    ensures ThresholdSignals(rsi, overbought, oversold)[t] == Buy
            <==> EntersOversold(rsi, oversold, t) && !EntersOverbought(rsi, overbought, t)
    ensures ThresholdSignals(rsi, overbought, oversold)[t] != Missing
  {
  }

  /** RSI 35, 28, 32 against oversold 30: a Buy on the 28 row only, none on the recovery. */
  lemma OversoldEntryExample()
    ensures ThresholdSignals([Some(35.0), Some(28.0), Some(32.0)], 70.0, 30.0) == [Hold, Buy, Hold]
  {
    var s := ThresholdSignals([Some(35.0), Some(28.0), Some(32.0)], 70.0, 30.0);
    assert s[0] == Hold && s[1] == Buy && s[2] == Hold;
  }
}
