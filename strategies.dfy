/**
 * The strategy family as one tagged value (strategies/__init__.py re-exports the classes;
 * every class copies the frame and reads its parameters with a default).
 */
module Strategies {
  import opened Signals
  import MovingAverageStrategy
  import RsiStrategy
  import MacdStrategy
  import RegressionStrategy

  datatype Strategy =
    | MovingAverage(shortWindow: nat, longWindow: nat)
    | Rsi(period: nat, overbought: real, oversold: real)
    | Macd(fastPeriod: nat, slowPeriod: nat, signalPeriod: nat)
      /** `predictions` stands for the fitted model's in-sample predictions on the kept rows. */
    | Regression(model: RegressionStrategy.Model, window: nat, predictions: seq<real>)

  const DefaultMovingAverage: Strategy :=
    MovingAverage(MovingAverageStrategy.DefaultShortWindow, MovingAverageStrategy.DefaultLongWindow)
  const DefaultRsi: Strategy :=
    Rsi(RsiStrategy.DefaultPeriod, RsiStrategy.DefaultOverbought, RsiStrategy.DefaultOversold)
  const DefaultMacd: Strategy :=
    Macd(MacdStrategy.DefaultFastPeriod, MacdStrategy.DefaultSlowPeriod, MacdStrategy.DefaultSignalPeriod)

  /**
   * Parameters the windows accept and a regression the model's library can fit: a rolling
   * window may be 0 (its mean is then NaN on every row), an exponential span must be at least 1.
   */
  predicate Admissible(s: Strategy, n: nat) {
    match s
    case MovingAverage(_, _) => true
    case Rsi(_, _, _) => true
    case Macd(fast, slow, signal) => fast >= 1 && slow >= 1 && signal >= 1
    case Regression(model, window, predictions) =>
      RegressionStrategy.Fits(model, n, window) && |predictions| == RegressionStrategy.KeptCount(n, window)
  }

  /** The default indicator strategies are admitted for any frame. */
  lemma DefaultsAdmissible(n: nat)
    ensures Admissible(DefaultMovingAverage, n) && Admissible(DefaultRsi, n) && Admissible(DefaultMacd, n)
  {
  }

  /**
   * A call after `calls` earlier ones can still fit: a regression strategy refits on its own
   * frame, which every earlier call has shrunk in place. The other strategies keep their frame.
   */
  predicate Refittable(s: Strategy, n: nat, calls: nat) {
    s.Regression? ==> RegressionStrategy.Fits(s.model, RegressionStrategy.Shrunk(n, s.window, calls), s.window)
  }

  /** `generate_signals`, dispatched on the strategy. */
  function Generate(s: Strategy, closes: seq<real>): (r: Series)
    requires Admissible(s, |closes|)
    ensures WellFormed(r)
  {
    match s
    case MovingAverage(short, long) => Full(MovingAverageStrategy.GenerateSignals(closes, short, long))
    case Rsi(period, overbought, oversold) => Full(RsiStrategy.GenerateSignals(closes, period, overbought, oversold))
    case Macd(fast, slow, signal) => Full(MacdStrategy.GenerateSignals(closes, fast, slow, signal))
    case Regression(model, window, predictions) =>
      RegressionStrategy.GenerateSignals(model, closes, window, predictions)
  }

  /**
   * Once stored into the backtester's frame, a signal is NaN exactly on the rows a regression
   * strategy drops (before `window`, and the last row); the indicator strategies cover every row.
   */
  lemma MissingRows(s: Strategy, closes: seq<real>)
    requires Admissible(s, |closes|)
    ensures var aligned := Align(Generate(s, closes), |closes|);
      forall t :: 0 <= t < |closes| ==>
        (aligned[t] == Missing <==> s.Regression? && !(s.window <= t < |closes| - 1))
  {
    var aligned := Align(Generate(s, closes), |closes|);
    var values := Generate(s, closes).values;
    match s
    case Regression(model, window, predictions) =>
      RegressionStrategy.AlignedSignals(model, closes, window, predictions);
    case MovingAverage(_, _) =>
      AlignFull(values);
    case Rsi(period, overbought, oversold) =>
      AlignFull(values);
      forall t | 0 <= t < |closes| ensures aligned[t] != Missing {
        RsiStrategy.SignalIsEntry(RsiStrategy.RsiSeries(closes, period), overbought, oversold, t);
      }
    case Macd(fast, slow, signal) =>
      AlignFull(values);
      var l := MacdStrategy.Indicators(closes, fast, slow, signal);
      forall t | 0 <= t < |closes| ensures aligned[t] != Missing {
        MacdStrategy.SignalIsCrossing(l.macd, l.signal, t);
      }
  }
}
