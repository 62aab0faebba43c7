# A verified model of a daily-bar strategy backtester

This project models the core of a small Python backtester. The core has two parts.

**Strategies.** A strategy turns a column of daily closing prices into a per-row trading signal:
1 (Buy), 0 (Hold) or -1 (Sell). There are six strategies:
- a moving-average crossover;
- an RSI threshold entry;
- a MACD crossover;
- three regression strategies: linear, polynomial and random forest. They share one pipeline of
  lag features, a next-day-change target, NaN row dropping and a prediction-sign mapping.

**The backtester.** `Backtester` stores the strategy's signals in its copy of the price frame.
`run` then walks the rows in order over two fields, `cash` and the integer share count `positions`:
- a Buy with cash spends it on `floor(cash / close)` shares;
- a Sell with shares liquidates every share;
- each row records the shares, the cash and the equity `cash + positions * close`.

`get_metrics` derives:
- the trade count;
- positional Buy/Sell pairing and the win rate;
- the total return;
- the maximum drawdown.

Modules, one per file:

| file | module | models |
|---|---|---|
| wrappers.dfy | Wrappers | `Option` and `Result` |
| signals.dfy | Signals | the signal values, including `Missing` (the NaN pandas writes where a series has no row), a labelled series, and index alignment |
| rolling.dfy | Rolling | `rolling(window).mean()` |
| moving_average.dfy | MovingAverageStrategy | strategies/moving_average_strategy.py |
| rsi.dfy | RsiStrategy | strategies/rsi_strategy.py |
| macd.dfy | MacdStrategy | strategies/macd_strategy.py |
| regression.dfy | RegressionStrategy | the three regression strategies |
| strategies.dfy | Strategies | the strategy family as one tagged value |
| metrics.dfy | Metrics | the statistics of `get_metrics` |
| backtester.dfy | Backtesting | the `Backtester` class, its state machine and `get_metrics` |

Prices, cash and indicator values are exact `real`s. The share count is a `nat`.

`Backtester.Run` is a method over the class's `cash` and `positions` fields. It loops over the rows
and fills three arrays: the shares, cash and equity columns. It is proved equal to a functional
specification:
- `Step` is one row's trade;
- `After` is the state after a prefix of the rows;
- `Simulate` gives the recorded columns.

The properties proved about that specification:
- a trade never changes the value of the holdings at the row's own close;
- the solvency invariant `cash >= 0 && (cash > 0 || shares > 0)` holds on every row. So with
  positive closes every recorded equity is positive, and the drawdown's division by the running
  peak is always defined.

## Where the code and its comments disagree

The moving-average strategy's comments describe a Buy as the transition of the raw state to 1.
The code emits the clamped sign of `raw[t] - raw[t-1]` instead
(strategies/moving_average_strategy.py:34-38). A move from -1 to 0 is therefore a Buy, and a move
from 1 to 0 is a Sell. The model follows the code. `MovingAverageStrategy.EdgeIsSignOfChange` states
the behaviour, and `MovingAverageStrategy.ReturnToEqualitySignals` shows it on concrete states.

The MACD strategy compares the previous MACD value with the current signal-line value, not the
previous one (strategies/macd_strategy.py:35,37). The model keeps that comparison.
`MacdStrategy.CurrentSignalComparison` exhibits two Buys on consecutive rows of a MACD line and its
own signal line, the second on a row where MACD was already above the signal line.

## Model

| member | source | states |
|---|---|---|
| Signals.FromCode | backtester.py:52-62 | an integer signal code is a Buy exactly when it is 1 and a Sell exactly when it is -1; it is never NaN |
| Signals.FromPrediction | strategies/linear_regression_strategy.py:48-50 | a prediction maps to Buy exactly when it is positive, Sell exactly when negative, Hold exactly when zero |
| Signals.Align | backtester.py:32 | storing a series gives one entry per frame row; what each entry is is stated by Signals.AlignContiguous and Signals.AlignFull |
| Signals.AlignContiguous | backtester.py:31-32 | storing a series labelled lo..lo+k-1 into an n-row frame puts each value on its own label and NaN on every other row |
| Signals.AlignFull | backtester.py:31-32 | a series that covers every row is stored unchanged |
| Rolling.Mean | strategies/moving_average_strategy.py:23-24 | the rolling mean at row t is defined exactly when window >= 1 and t+1 >= window; a window of 0 gives NaN on every row |
| Rolling.MeanAtLeast | strategies/moving_average_strategy.py:23-24 | a rolling mean is at least any lower bound of its window's values |
| Rolling.MeanAtMost | strategies/moving_average_strategy.py:23-24 | a rolling mean is at most any upper bound of its window's values |
| MovingAverageStrategy.RawState | strategies/moving_average_strategy.py:27-31 | the raw crossover state is always -1, 0 or 1 |
| MovingAverageStrategy.RawStates | strategies/moving_average_strategy.py:27-31 | one raw crossover state per row, each -1, 0 or 1; MovingAverageStrategy.StateIsSignOfSpread and MovingAverageStrategy.WarmUpHolds state which |
| MovingAverageStrategy.GenerateSignals | strategies/moving_average_strategy.py:18-41 | the strategy returns one signal per input row |
| MovingAverageStrategy.StateIsSignOfSpread | strategies/moving_average_strategy.py:23-31 | once both means exist, the raw state is 1, -1 or 0 exactly when the short mean is above, below or equal to the long mean |
| MovingAverageStrategy.WarmUpHolds | strategies/moving_average_strategy.py:23-34 | while either mean is undefined, including every row when a window is 0, the raw state is 0 and the signal is Hold |
| MovingAverageStrategy.Clamp | strategies/moving_average_strategy.py:36-38 | the clipped change lies in [-1, 1]; it is 1 exactly when the change is +1 or +2, and -1 exactly when it is -1 or -2 |
| MovingAverageStrategy.EdgeSignals | strategies/moving_average_strategy.py:34-38 | one signal per raw state; which signal is stated by MovingAverageStrategy.EdgeIsSignOfChange |
| MovingAverageStrategy.EdgeIsSignOfChange | strategies/moving_average_strategy.py:34-38 | the diff, fillna(0) and clamps make a Buy exactly when the raw state rises, a Sell exactly when it falls, and a Hold on row 0 or when it stays |
| MovingAverageStrategy.ConstantStateHolds | strategies/moving_average_strategy.py:33-38 | while the raw state stays constant, every signal after the first row of the run is Hold, so a Buy is never repeated |
| MovingAverageStrategy.FallHasSell | strategies/moving_average_strategy.py:34-38 | if the raw state is lower at b than at a, some row in (a, b] carries a Sell |
| MovingAverageStrategy.NoThreeBuysWithoutSell | strategies/moving_average_strategy.py:34-38 | among three Buys there is always a Sell between the first and the last |
| MovingAverageStrategy.ClosesExample | strategies/moving_average_strategy.py:19-41 | closes 3, 1, 2, 2 with windows 1 and 2 give Hold, Sell, Buy, Sell: the last Sell is a return of the means to equality |
| MovingAverageStrategy.ReturnToEqualitySignals | strategies/moving_average_strategy.py:34-38 | raw states -1,0,1 give Hold,Buy,Buy, and 1,0,-1 give Hold,Sell,Sell: a Buy is not only a transition to 1 |
| MovingAverageStrategy.FirstDefinedRowState | strategies/moving_average_strategy.py:29-34 | on the first row where both means exist, the signal is Buy or Sell exactly when the raw state is 1 or -1 |
| MovingAverageStrategy.FirstDefinedRowSignals | strategies/moving_average_strategy.py:19-34 | on row max(short, long) - 1 a Buy fires exactly when the short mean is above the long mean, and a Sell exactly when it is below |
| RsiStrategy.Gain | strategies/rsi_strategy.py:22-23 | a gain is never negative and is 0 on row 0, where the diff is NaN; RsiStrategy.GainLossSplit relates it to the change |
| RsiStrategy.Loss | strategies/rsi_strategy.py:22-24 | a loss is never negative and is 0 on row 0; RsiStrategy.GainLossSplit relates it to the change |
| RsiStrategy.GainLossSplit | strategies/rsi_strategy.py:22-24 | gain minus loss is the close-to-close change, both are non-negative, one of them is 0, and both are 0 on row 0 |
| RsiStrategy.Gains | strategies/rsi_strategy.py:23 | one non-negative gain per row |
| RsiStrategy.Losses | strategies/rsi_strategy.py:24 | one non-negative loss per row |
| RsiStrategy.Index | strategies/rsi_strategy.py:27-28 | with the 1e-10 stand-in for a zero loss, the RSI lies in [0, 100) and is 0 exactly when the average gain is 0 |
| RsiStrategy.Rsi | strategies/rsi_strategy.py:23-28 | a defined RSI lies in [0, 100); when it is defined is stated by RsiStrategy.RsiRange, and RsiStrategy.NoGainMeansZero gives its value on a window without gains |
| RsiStrategy.RsiRange | strategies/rsi_strategy.py:23-28 | the RSI at row t is defined exactly when period >= 1 and t+1 >= period, and then lies in [0, 100) |
| RsiStrategy.RsiSeries | strategies/rsi_strategy.py:27-30 | one RSI entry per row, every defined one in [0, 100); RsiStrategy.RsiRange states which rows are defined |
| RsiStrategy.NoGainMeansZero | strategies/rsi_strategy.py:23-28 | a window without any gain, flat windows included, gives RSI 0 |
| RsiStrategy.NoSignalBeforePeriod | strategies/rsi_strategy.py:23-37 | no signal occurs before row `period`, nor on any row when the period is 0 |
| RsiStrategy.ThresholdSignals | strategies/rsi_strategy.py:33-37 | one signal per RSI value; which signal is stated by RsiStrategy.SignalIsEntry |
| RsiStrategy.SignalIsEntry | strategies/rsi_strategy.py:33-37 | Sell exactly when RSI enters the overbought region; Buy exactly when it enters the oversold region and does not enter the overbought one; never NaN |
| RsiStrategy.OversoldEntryExample | strategies/rsi_strategy.py:35 | RSI 35, 28, 32 with oversold 30 gives a Buy only at the 28 bar |
| RsiStrategy.GenerateSignals | strategies/rsi_strategy.py:13-40 | the strategy returns one signal per input row |
| MacdStrategy.Alpha | strategies/macd_strategy.py:22-25 | the smoothing factor 2/(span+1) lies in (0, 1] |
| MacdStrategy.Ema | strategies/macd_strategy.py:22-25 | one EMA value per input; its recurrence and bounds are stated by MacdStrategy.EmaRecurrence and MacdStrategy.EmaWithin |
| MacdStrategy.EmaRecurrence | strategies/macd_strategy.py:22-25 | the unadjusted EMA starts at the first input and then follows e[t] = alpha x[t] + (1 - alpha) e[t-1] |
| MacdStrategy.EmaWithin | strategies/macd_strategy.py:22-25 | every EMA value lies between any bounds of the inputs seen so far |
| MacdStrategy.Indicators | strategies/macd_strategy.py:22-26 | the MACD, signal and histogram lines each have one value per close |
| MacdStrategy.IndicatorsStartAtZero | strategies/macd_strategy.py:22-26 | MACD, signal line and histogram are all 0 on row 0 |
| MacdStrategy.MacdWithin | strategies/macd_strategy.py:22-24 | for closes within [lo, hi], the MACD line lies within [lo - hi, hi - lo] |
| MacdStrategy.CrossSignals | strategies/macd_strategy.py:33-37 | one signal per row; which signal is stated by MacdStrategy.SignalIsCrossing |
| MacdStrategy.SignalIsCrossing | strategies/macd_strategy.py:33-37 | Buy exactly when MACD crosses above the signal line, Sell exactly when it crosses below; the two never coincide, and row 0 is Hold |
| MacdStrategy.CurrentSignalComparison | strategies/macd_strategy.py:25-35 | the MACD line 0, 2, 3 has the span-2 signal line 0, 4/3, 22/9, and gives a Buy on rows 1 and 2, because the previous MACD is compared with the current signal line |
| MacdStrategy.GenerateSignals | strategies/macd_strategy.py:13-40 | the strategy returns one signal per input row |
| RegressionStrategy.Target | strategies/linear_regression_strategy.py:25-26 | the next-day-change target is NaN exactly on the last row |
| RegressionStrategy.Lag | strategies/linear_regression_strategy.py:29-30 | the lag-i value at row t is defined exactly when i <= t |
| RegressionStrategy.Frame | strategies/linear_regression_strategy.py:25-30 | one frame row per close; which rows are complete is stated by RegressionStrategy.CompleteRow |
| RegressionStrategy.DropNa | strategies/linear_regression_strategy.py:33 | dropping NaN rows never lengthens the frame; which rows stay is stated by RegressionStrategy.KeptRows |
| RegressionStrategy.CompleteRow | strategies/linear_regression_strategy.py:25-33 | a row survives `dropna` exactly when window <= t <= n-2; its target is then the next-day change and its i-th lag is close[t-i] |
| RegressionStrategy.KeptRows | strategies/polynomial_regression_strategy.py:27-35 | dropping NaN rows keeps exactly rows window..n-2, in order, each with its lags and next-day-change target |
| RegressionStrategy.GenerateSignals | strategies/random_forest_strategy.py:30-66 | the series is labelled by the kept rows window..n-2, and its k-th value is the sign of the k-th prediction |
| RegressionStrategy.Fits | strategies/linear_regression_strategy.py:41-42 | definition only: a window of at least 1, more than window+1 rows, and for the forest at least one tree, depth 1 and 2 to #kept folds; RegressionStrategy.DefaultsFit evaluates it for the defaults |
| RegressionStrategy.DefaultsFit | strategies/random_forest_strategy.py:24-27 | with the default parameters the linear and polynomial models fit exactly when the frame has more than 6 rows, the forest with its 5 folds exactly when it has at least 11 |
| RegressionStrategy.Shrunk | strategies/linear_regression_strategy.py:33 | the strategy's own frame never grows across calls, and each call on a non-empty frame shrinks it; RegressionStrategy.ShrunkLength gives its exact length |
| RegressionStrategy.ShrunkLength | strategies/linear_regression_strategy.py:33 | each call's in-place `dropna` removes window+1 rows of the strategy's own frame, until none is left |
| RegressionStrategy.AlignedSignals | strategies/linear_regression_strategy.py:48-54 | stored in the backtester's frame, row t holds the sign of its own prediction for window <= t <= n-2 and NaN elsewhere |
| Strategies.Admissible | strategies/macd_strategy.py:22-25 | definition only: rolling windows of any size, EMA spans of at least 1, and for a regression the fit conditions of RegressionStrategy.Fits with one prediction per kept row; Strategies.DefaultsAdmissible evaluates it for the defaults |
| Strategies.Refittable | strategies/linear_regression_strategy.py:33-42 | definition only: a regression strategy can still fit the frame that its earlier calls shrank in place (RegressionStrategy.Shrunk); the indicator strategies always can |
| Strategies.Generate | strategies/base_strategy.py:16-23 | each strategy yields a well-formed series |
| Strategies.DefaultsAdmissible | strategies/moving_average_strategy.py:19-20 | the default moving-average strategy (windows 3 and 5), the default RSI strategy (period 6, thresholds 70 and 30, from strategies/rsi_strategy.py:17-19) and the default MACD strategy (spans 4, 8 and 2, from strategies/macd_strategy.py:17-19) are admitted for a frame of any length |
| Strategies.MissingRows | backtester.py:31-32 | after storing, a signal is NaN exactly on the rows a regression strategy drops; the indicator strategies cover every row |
| Backtesting.Value | backtester.py:71 | definition only: cash plus the shares valued at the close; Backtesting.StepKeepsValue, Backtesting.ValuePositive and Backtesting.RowColumns state its properties |
| Backtesting.Affordable | backtester.py:54 | k = floor(cash/price) is the largest affordable share count: k price <= cash < (k+1) price, and k is 0 exactly when cash < price |
| Backtesting.Step | backtester.py:52-66 | a row changes the state only through a Buy that adds shares or a Sell that empties a non-zero position; anything else leaves it unchanged; Backtesting.BuyRule, Backtesting.SellRule, Backtesting.NoOpRule and Backtesting.StepKeepsValue state the amounts |
| Backtesting.StepKeepsValue | backtester.py:52-66 | a row's trade leaves the value of the holdings at that close unchanged and keeps the solvency invariant |
| Backtesting.BuyRule | backtester.py:52-57 | a Buy with cash adds floor(cash/price) shares and subtracts their cost, leaving 0 <= cash < price |
| Backtesting.SellRule | backtester.py:62-65 | a Sell with shares adds their proceeds to cash and leaves exactly 0 shares |
| Backtesting.NoOpRule | backtester.py:52-62 | Hold, NaN, a Buy with cash below the price and a Sell while flat leave cash and shares unchanged |
| Backtesting.After | backtester.py:47-66 | definition only: the state after the first i rows; Backtesting.AfterSolvent, Backtesting.RowEquity and Backtesting.UnmatchedKeepsState state its properties |
| Backtesting.AfterSolvent | backtester.py:47-66 | from a solvent start, every prefix of the run stays solvent |
| Backtesting.Simulate | backtester.py:47-74 | the result has the input's closes and signals and one cash, shares and equity entry per row |
| Backtesting.RowColumns | backtester.py:69-71 | each row records the post-trade shares and cash, and equity = cash + shares * close |
| Backtesting.RowValue | backtester.py:52-71 | a row's recorded equity equals the value of the pre-trade holdings at the same close |
| Backtesting.RowEquity | backtester.py:47-71 | a row's equity is the value of the holdings entering that row, and is positive with non-negative cash from a solvent start |
| Backtesting.ValuePositive | backtester.py:71 | solvent holdings have positive value at a positive price |
| Backtesting.FlatAfterSell | backtester.py:62-69 | a Sell row always records 0 shares |
| Backtesting.FirstRowEquity | backtester.py:35-71 | from all cash and no shares, row 0's equity is the initial capital |
| Backtesting.Unmatched | backtester.py:43-44 | the column a later run reads once the index holds datetimes: one entry per row, every one NaN; Backtesting.UnmatchedKeepsState shows it trades nothing |
| Backtesting.UnmatchedKeepsState | backtester.py:52-62 | with NaN on every row no trade happens, so every prefix of the run leaves the state as it started |
| Backtesting.UnmatchedRecordsStart | backtester.py:47-71 | a run over a NaN column records the starting cash and shares on every row |
| Backtesting.SimulationRecorded | backtester.py:47-74 | from a solvent start, every recorded row has positive equity |
| Backtesting.SimulationExample | backtester.py:47-71 | capital 1000, closes 100, 110, 90 and Buy, Hold, Sell give shares 10, 10, 0, cash 0, 0, 900 and equity 1000, 1100, 900 |
| Backtesting.TradesExample | backtester.py:90-96 | the same run has Buy close 100, Sell close 90 and two trades |
| Backtesting.DrawdownExample | backtester.py:114-116 | equity 1000, 1100, 900 has maximum drawdown -200/1100 * 100 |
| Backtesting.MetricsExample | backtester.py:76-127 | the same run's metrics: 2 trades, 1 pair, 0 wins, win rate 0, total return -10, drawdown -200/1100 * 100 |
| Backtesting.RecordedMetrics | backtester.py:106-116 | for a recorded run, the final equity is positive, the total return is above -100, the drawdown lies in [-100, 0] and the win rate in [0, 100] |
| Backtesting.Backtester.constructor | backtester.py:7-21 | the backtester keeps its inputs and starts with all cash, no shares and no results |
| Backtesting.Backtester.FrameSignals | backtester.py:31-32 | the column the first run stores: the strategy's series aligned on the frame's rows, one entry per row |
| Backtesting.Backtester.StoredSignals | backtester.py:31-44 | the stored signal column has one entry per row: the aligned series on the first run, NaN on every row of a later run, whose frame index has become datetimes |
| Backtesting.Backtester.Run | backtester.py:23-74 | the run's columns are the simulation of the stored signals from the current cash and shares, so a later run trades nothing; the fields end in the simulation's final state; the results are kept, the run is counted and the invariant holds |
| Backtesting.Backtester.Replay | backtester.py:35-71 | the loop fills the shares, cash and equity columns exactly as the simulation does, row by row |
| Backtesting.Backtester.Trade | backtester.py:52-66 | one row's branch logic takes the fields to the specified step |
| Backtesting.Backtester.GetMetrics | backtester.py:76-127 | an error before any run or on an empty frame, otherwise exactly the metrics record of the recorded columns |
| Metrics.TradeCount | backtester.py:90-91 | at most one trade per row; Metrics.TradeCountSplit states which rows count |
| Metrics.TradeCountSplit | backtester.py:90-91 | the trade count is the number of Buy, Sell and NaN rows, that is every row that is not a Hold |
| Metrics.RowsOf | backtester.py:95-96 | as many rows as signals of the kind, each of them holding that kind; Metrics.RowsOfInOrder adds that they are all such rows, in order |
| Metrics.RowsOfInOrder | backtester.py:95-96 | the selected Buy (or Sell) rows are every such row, in increasing order |
| Metrics.PricesOf | backtester.py:95-102 | one price per selected row, positive when the closes are |
| Metrics.Profits | backtester.py:99-104 | min(#Buy, #Sell) profits; Metrics.PairProfits states each one and Metrics.WinningIsRises its sign |
| Metrics.Winning | backtester.py:106 | never more wins than profits; Metrics.WinningIsRises states which profits win |
| Metrics.PairProfits | backtester.py:99-104 | the loop produces min(#Buy, #Sell) profits, the i-th being the relative change from the i-th Buy close to the i-th Sell close |
| Metrics.WinningIsRises | backtester.py:100-106 | a pair wins exactly when its Sell close is above its Buy close |
| Metrics.WinRate | backtester.py:107 | the win rate lies in [0, 100]; it is 100 exactly when every pair wins and 0 exactly when none does or there are no pairs |
| Metrics.TotalReturn | backtester.py:110-111 | the final equity is the capital grown by the return; the return is at least -100 exactly when the final equity is non-negative, and positive exactly when it ends above the capital |
| Metrics.RunningMax | backtester.py:114 | the running peak bounds every earlier equity and is attained by one of them |
| Metrics.Drawdown | backtester.py:115 | a row's drawdown is at most 0, exactly 0 at a peak, and at least -1 for non-negative equity |
| Metrics.MinDrawdown | backtester.py:116 | the minimum is below every row's drawdown and attained by one of them |
| Metrics.MaxDrawdownPct | backtester.py:114-116 | definition only; Metrics.DrawdownBounds and Metrics.NoDrawdownAtPeak state its range and when it is 0 |
| Metrics.DrawdownBounds | backtester.py:114-116 | the maximum drawdown percentage lies in [-100, 0] when the equity is non-negative |
| Metrics.NoDrawdownAtPeak | backtester.py:114-116 | the maximum drawdown is 0 exactly when every row is at its running peak |
| Metrics.Summarize | backtester.py:76-127 | definition only: the metrics record; Metrics.SummaryFacts, Metrics.SummaryReturn and Backtesting.RecordedMetrics state its fields |
| Metrics.SummaryFacts | backtester.py:89-127 | the record pairs min(#Buy, #Sell), counts the wins as the pairs whose price rose, keeps the win rate in [0, 100], counts every non-Hold row as a trade, and bounds the drawdown |
| Metrics.SummaryReturn | backtester.py:110-111 | the record's final equity is the last row's, and its total return is that equity's return over the capital |

## Left out

- visualizer.py, main.py and data_loader.py are not part of this model. They cover plotting, configuration, console output and CSV parsing.
- strategies/base_strategy.py and strategies/__init__.py only copy the frame, default the parameters and re-export the classes. The `Strategies.Strategy` tag stands for them, and its parameters stand for the `params` dictionary with the defaults as constants.
- The fitted regressors are foreign library code. These are not modelled: scikit-learn's `LinearRegression`, `PolynomialFeatures`, `RandomForestRegressor` with its fixed random state, and `fit`/`predict`. The in-sample predictions on the kept rows are an input of the `Regression` strategy. A fit on too few rows raises in the library, so `RegressionStrategy.Fits` requires n > window + 1.
- The random forest's cross-validation scores are only printed. The print does not change the model or its signals, so it is left out. The fold count is still constrained to what the library accepts.
- Printing of trades and scores is left out.
- The dtype casts (backtester.py:39-40) change no value the model tracks. The datetime index conversion (backtester.py:43-44) is modelled only through its effect on later runs: `Backtesting.Backtester.StoredSignals` stores NaN on every row then.
- Float64 rounding is not modelled. Arithmetic is exact over `real`, and the shares column is a `nat`, where pandas stores a float.
- Metrics.Summarize: does not round the return, win rate and drawdown to 2 decimals (backtester.py:121-126). It returns the exact values.
- Backtesting.Backtester.constructor: requires positive initial capital and positive closes, which the source assumes but does not check. They rule out a division by a zero price and make every equity positive. It also requires `Strategies.Admissible(strategy, |data|)`: a regression model must be able to fit the frame and MACD spans must be at least 1. The constructor at backtester.py:7-21 does not check this; in the source an inadmissible strategy raises only inside the run, at backtester.py:31.
- Window parameters are `nat`. A negative rolling window, which pandas rejects, cannot be written. A window of 0 is modelled: its mean is NaN on every row. An EMA span below 1 is rejected by pandas, so `Strategies.Admissible` requires spans of at least 1.
- Signals.AlignContiguous: alignment is modelled for labels that are row positions. At backtester.py:32 the labels are the loader's integer labels. The loader sorts by date and keeps those labels, and the strategy's frame is a copy of the same frame, so each label names the same row in both frames. Aligning by label then matches aligning by position.
- Backtesting.Backtester.GetMetrics: the message of the raised exception is not modelled, only which error occurs. `NotRun` stands for the explicit raise, and `NoRows` for the index error of `iloc[-1]` on an empty frame.
- Metrics.SummaryFacts: does not repeat the total-return fact. That fact is stated by Metrics.SummaryReturn together with Metrics.TotalReturn's own contract.
- A regression strategy's `dropna(inplace=True)` shrinks the strategy's own copy of the frame. The model tracks only that frame's length (`RegressionStrategy.Shrunk`). A later run needs the refit on the shrunk frame to succeed, which `Strategies.Refittable` requires. The predictions of that refit are not modelled, because the run stores NaN in their place.
- Backtesting.Backtester.Run: counts the calls of the strategy per backtester. The count is right only if a strategy object is not shared between backtesters. The main program creates one backtester per strategy.
- RegressionStrategy.KeptRows: the modelled frame holds only the lag and target columns. The in-place `dropna` also drops rows with NaN in any other column of the loaded frame, so the model assumes those columns hold no NaN.
