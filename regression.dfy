/**
 * The three regression strategies (strategies/linear_regression_strategy.py,
 * strategies/polynomial_regression_strategy.py, strategies/random_forest_strategy.py).
 *
 * They share one pipeline: add a next-day-change target and `window` lagged closes,
 * drop every row with a NaN, fit a model on the kept rows, predict on the same rows,
 * and map the sign of each prediction to a signal. The fitted model is foreign: its
 * in-sample predictions are an input here.
 */
module RegressionStrategy {
  import opened Wrappers
  import opened Signals

  const DefaultWindow: nat := 5
  const DefaultDegree: nat := 2
  const DefaultEstimators: nat := 100
  const DefaultMaxDepth: nat := 5
  const DefaultCvFolds: nat := 5

  /** Which regressor is fitted; only the parameters the model's library checks matter here. */
  datatype Model = Linear | Polynomial(degree: nat) | RandomForest(nEstimators: nat, maxDepth: nat, cvFolds: nat)

  /** A row of the strategy's frame once the target and lag columns are added. */
  datatype FrameRow = FrameRow(index: nat, lags: seq<Option<real>>, target: Option<real>)

  /** A row kept for fitting: its label, its lag features and its target. */
  datatype Sample = Sample(index: nat, features: seq<real>, target: real)

  /** `close.shift(-1) - close`: NaN on the last row. */
  function Target(closes: seq<real>, t: nat): (r: Option<real>)
    requires t < |closes|
    ensures r.Some? <==> t + 1 < |closes|
  {
    if t + 1 < |closes| then Some(closes[t + 1] - closes[t]) else None
  }

  /** `close.shift(i)`: NaN on the first i rows. */
  function Lag(closes: seq<real>, i: nat, t: nat): (r: Option<real>)
    requires t < |closes|
    ensures r.Some? <==> i <= t
  {
    if i <= t then Some(closes[t - i]) else None
  }

  /** The frame with columns lag_1 .. lag_window and the target. */
  function Frame(closes: seq<real>, window: nat): (f: seq<FrameRow>)
    ensures |f| == |closes|
  {
    seq(|closes|, t requires 0 <= t < |closes| =>
      FrameRow(t, seq(window, i requires 0 <= i < window => Lag(closes, i + 1, t)), Target(closes, t)))
  }

  predicate Complete(r: FrameRow) {
    r.target.Some? && forall i :: 0 <= i < |r.lags| ==> r.lags[i].Some?
  }

  function ToSample(r: FrameRow): Sample
    requires Complete(r)
  {
    Sample(r.index, seq(|r.lags|, i requires 0 <= i < |r.lags| => r.lags[i].value), r.target.value)
  }

  /** `dropna()`: the complete rows, in order. */
  function DropNa(rows: seq<FrameRow>): (r: seq<Sample>)
    ensures |r| <= |rows|
  {
    if |rows| == 0 then []
    else (if Complete(rows[0]) then [ToSample(rows[0])] else []) + DropNa(rows[1..])
  }

  /** The sample the frame holds at row t when it is kept. */
  function KeptSample(closes: seq<real>, window: nat, t: nat): Sample
    requires window <= t && t + 1 < |closes|
  {
    Sample(t, seq(window, i requires 0 <= i < window => closes[t - (i + 1)]), closes[t + 1] - closes[t])
  }

  /** The number of rows window .. n - 2. */
  function KeptCount(n: nat, window: nat): nat
  {
    if n > window + 1 then n - window - 1 else 0
  }

  /**
   * The length of the strategy's own frame after `calls` earlier calls: each call drops the
   * incomplete rows of that frame in place, so the next call starts from the kept rows only.
   */
  function Shrunk(n: nat, window: nat, calls: nat): (m: nat)
    ensures m <= n
    ensures calls > 0 && n > 0 ==> m < n
  {
    if calls == 0 then n else KeptCount(Shrunk(n, window, calls - 1), window)
  }

  /** Each call removes window + 1 rows, until none is left. */
  lemma {:induction false} ShrunkLength(n: nat, window: nat, calls: nat)
    ensures Shrunk(n, window, calls) == if n >= calls * (window + 1) then n - calls * (window + 1) else 0
  {
    if calls > 0 {
      ShrunkLength(n, window, calls - 1);
      assert calls * (window + 1) == (calls - 1) * (window + 1) + window + 1;
    }
  }

  /** The samples of rows max(from, window) .. n - 2, in order. */
  function KeptFrom(closes: seq<real>, window: nat, from: nat): (s: seq<Sample>)
  {
    var lo := if from > window then from else window;
    seq(KeptCount(|closes|, lo), k requires 0 <= k < KeptCount(|closes|, lo) => KeptSample(closes, window, lo + k))
  }

  /** A frame row is complete exactly when it has a next close and `window` earlier closes. */
  lemma CompleteRow(closes: seq<real>, window: nat, t: nat)
    requires t < |closes|
    ensures Complete(Frame(closes, window)[t]) <==> window <= t && t + 1 < |closes|
    ensures window <= t && t + 1 < |closes| ==> ToSample(Frame(closes, window)[t]) == KeptSample(closes, window, t)
  {
    var r := Frame(closes, window)[t];
    assert r.index == t && r.target == Target(closes, t);
    assert |r.lags| == window;
    assert forall i :: 0 <= i < window ==> r.lags[i] == Lag(closes, i + 1, t);
    if window > t {
      assert r.lags[window - 1] == None;
    }
    if window <= t && t + 1 < |closes| {
      assert Complete(r);
      assert ToSample(r).features == KeptSample(closes, window, t).features;
    }
  }

  lemma {:induction false} DropNaFrom(closes: seq<real>, window: nat, from: nat)
    requires from <= |closes|
    ensures DropNa(Frame(closes, window)[from..]) == KeptFrom(closes, window, from)
    decreases |closes| - from
  {
    var rows := Frame(closes, window)[from..];
    if from < |closes| {
      assert rows[1..] == Frame(closes, window)[from + 1..];
      DropNaFrom(closes, window, from + 1);
      CompleteRow(closes, window, from);
      var rest := KeptFrom(closes, window, from + 1);
      if window <= from && from + 1 < |closes| {
        assert KeptFrom(closes, window, from) == [KeptSample(closes, window, from)] + rest;
      } else {
        assert KeptFrom(closes, window, from) == rest;
      }
    }
  }

  /**
   * Dropping the NaN rows keeps exactly rows window .. n - 2, in order: the k-th sample is
   * row window + k, its lag_i feature is the close i rows earlier and its target is the
   * change to the next close.
   */
  lemma KeptRows(closes: seq<real>, window: nat)
    ensures var samples := DropNa(Frame(closes, window));
      && |samples| == KeptCount(|closes|, window)
      && forall k :: 0 <= k < |samples| ==>
           && samples[k].index == window + k
           && samples[k].target == closes[window + k + 1] - closes[window + k]
           && |samples[k].features| == window
           && forall i :: 0 <= i < window ==> samples[k].features[i] == closes[window + k - (i + 1)]
  {
    assert Frame(closes, window)[0..] == Frame(closes, window);
    DropNaFrom(closes, window, 0);
    var samples := KeptFrom(closes, window, 0);
    forall k | 0 <= k < |samples|
      ensures samples[k] == KeptSample(closes, window, window + k)
    {
    }
  }

  /** What the model's library demands before it fits: at least one kept row and one feature, and a valid model. */
  predicate Fits(model: Model, n: nat, window: nat) {
    && window >= 1
    && n > window + 1
    && match model
       case Linear => true
       case Polynomial(_) => true
       case RandomForest(estimators, depth, folds) =>
         estimators >= 1 && depth >= 1 && 2 <= folds <= KeptCount(n, window)
  }

  /**
   * With the default parameters, the linear and polynomial models fit once the frame has more
   * than 6 rows; the default forest's 5-fold cross-validation needs at least 11.
   */
  lemma DefaultsFit(n: nat)
    ensures Fits(Linear, n, DefaultWindow) <==> n > 6
    ensures Fits(Polynomial(DefaultDegree), n, DefaultWindow) <==> n > 6
    ensures Fits(RandomForest(DefaultEstimators, DefaultMaxDepth, DefaultCvFolds), n, DefaultWindow) <==> n >= 11
  {
  }

  /**
   * `generate_signals`: 0 everywhere, then 1 where the prediction is positive, then -1 where
   * it is negative, on the kept rows only. The returned series carries their labels.
   */
  function GenerateSignals(model: Model, closes: seq<real>, window: nat, predictions: seq<real>): (s: Series)
    requires Fits(model, |closes|, window) && |predictions| == KeptCount(|closes|, window)
    ensures WellFormed(s)
    ensures s.index == Range(window, |closes| - 1)
    ensures |s.values| == |predictions|
    ensures forall k :: 0 <= k < |s.values| ==> s.values[k] == FromPrediction(predictions[k])
  {
    var samples := DropNa(Frame(closes, window));
    KeptRows(closes, window);
    Series(seq(|samples|, k requires 0 <= k < |samples| => samples[k].index),
           seq(|samples|, k requires 0 <= k < |samples| => FromPrediction(predictions[k])))
  }

  /**
   * Stored into the backtester's frame, the series is shorter than the data: rows before
   * `window` and the last row hold NaN, every other row the sign of its own prediction.
   */
  lemma AlignedSignals(model: Model, closes: seq<real>, window: nat, predictions: seq<real>)
    requires Fits(model, |closes|, window) && |predictions| == KeptCount(|closes|, window)
    ensures var aligned := Align(GenerateSignals(model, closes, window, predictions), |closes|);
      forall t :: 0 <= t < |closes| ==>
        aligned[t] == if window <= t < |closes| - 1 then FromPrediction(predictions[t - window]) else Missing
  {
    var s := GenerateSignals(model, closes, window, predictions);
    KeptRows(closes, window);
    assert s.index == Range(window, window + |s.values|);
    AlignContiguous(window, s.values, |closes|);
  }
}
