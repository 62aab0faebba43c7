/**
 * The statistics `get_metrics` derives from a finished backtest (backtester.py:76-127):
 * trade count, positional buy/sell pairing and win rate, total return and maximum drawdown.
 */
module Metrics {
  import opened Signals

  function Min(a: nat, b: nat): nat {
    if a < b then a else b
  }

  /** The number of rows holding `kind` (the length of a `== 1` or `== -1` selection). */
  function CountOf(s: seq<Signal>, kind: Signal): (c: nat)
    ensures c <= |s|
  {
    if |s| == 0 then 0 else CountOf(s[..|s| - 1], kind) + (if s[|s| - 1] == kind then 1 else 0)
  }

  /** `len(results[signal != 0])`: a NaN row compares unequal to 0 and is counted too. */
  function TradeCount(s: seq<Signal>): (c: nat)
    ensures c <= |s|
  {
    if |s| == 0 then 0 else TradeCount(s[..|s| - 1]) + (if s[|s| - 1] != Hold then 1 else 0)
  }

  /** Every Buy, every Sell and every NaN row is a trade; only Hold rows are not. */
  lemma {:induction false} TradeCountSplit(s: seq<Signal>)
    ensures TradeCount(s) == CountOf(s, Buy) + CountOf(s, Sell) + CountOf(s, Missing)
    ensures TradeCount(s) == |s| - CountOf(s, Hold)
  {
    if |s| > 0 {
      TradeCountSplit(s[..|s| - 1]);
    }
  }

  /** The rows whose signal is `kind`, in order of appearance (a boolean-mask selection). */
  function RowsOf(s: seq<Signal>, kind: Signal): (rows: seq<nat>)
    ensures |rows| == CountOf(s, kind)
    ensures forall k :: 0 <= k < |rows| ==> rows[k] < |s| && s[rows[k]] == kind
  {
    if |s| == 0 then []
    else RowsOf(s[..|s| - 1], kind) + (if s[|s| - 1] == kind then [|s| - 1] else [])
  }

  /** The selection is strictly increasing and misses no row: its k-th entry is the k-th `kind` row. */
  lemma {:induction false} RowsOfInOrder(s: seq<Signal>, kind: Signal)
    ensures forall k, m :: 0 <= k < m < |RowsOf(s, kind)| ==> RowsOf(s, kind)[k] < RowsOf(s, kind)[m]
    ensures forall t :: 0 <= t < |s| && s[t] == kind ==> t in RowsOf(s, kind)
  {
    if |s| > 0 {
      var p := s[..|s| - 1];
      RowsOfInOrder(p, kind);
      forall t | 0 <= t < |s| - 1 && s[t] == kind ensures t in RowsOf(s, kind) {
        assert p[t] == kind;
      }
    }
  }

  /** The closes of the `kind` rows, in order of appearance. */
  function PricesOf(closes: seq<real>, s: seq<Signal>, kind: Signal): (prices: seq<real>)
    requires |closes| == |s|
    ensures |prices| == CountOf(s, kind)
    ensures (forall t :: 0 <= t < |closes| ==> closes[t] > 0.0) ==> forall k :: 0 <= k < |prices| ==> prices[k] > 0.0
  {
    var rows := RowsOf(s, kind);
    seq(|rows|, k requires 0 <= k < |rows| => closes[rows[k]])
  }

  /** The relative profit of the i-th Buy paired with the i-th Sell, by position alone. */
  function Profits(buys: seq<real>, sells: seq<real>): (p: seq<real>)
    requires forall i :: 0 <= i < |buys| ==> buys[i] > 0.0
    ensures |p| == Min(|buys|, |sells|)
  {
    seq(Min(|buys|, |sells|), i requires 0 <= i < Min(|buys|, |sells|) => (sells[i] - buys[i]) / buys[i])
  }

  /** The loop that fills `profits`, one pair at a time. */
  method PairProfits(buys: seq<real>, sells: seq<real>) returns (profits: seq<real>)
    requires forall i :: 0 <= i < |buys| ==> buys[i] > 0.0
    ensures |profits| == Min(|buys|, |sells|)
    ensures forall i :: 0 <= i < |profits| ==> profits[i] == (sells[i] - buys[i]) / buys[i]
  {
    var pairs := Min(|buys|, |sells|);
    profits := [];
    for i := 0 to pairs
      invariant |profits| == i
      invariant forall j :: 0 <= j < i ==> profits[j] == (sells[j] - buys[j]) / buys[j]
    {
      var buyPrice := buys[i];
      var sellPrice := sells[i];
      profits := profits + [(sellPrice - buyPrice) / buyPrice];
    }
  }

  /** `len([p for p in profits if p > 0])`. */
  function Winning(profits: seq<real>): (w: nat)
    ensures w <= |profits|
  {
    if |profits| == 0 then 0 else Winning(profits[..|profits| - 1]) + (if profits[|profits| - 1] > 0.0 then 1 else 0)
  }

  /** The number of the first k pairs whose Sell close is above its Buy close. */
  function Rises(buys: seq<real>, sells: seq<real>, k: nat): nat
    requires k <= |buys| && k <= |sells|
  {
    if k == 0 then 0 else Rises(buys, sells, k - 1) + (if sells[k - 1] > buys[k - 1] then 1 else 0)
  }

  /** A pair wins exactly when its Sell close is above its Buy close. */
  lemma {:induction false} WinningIsRises(buys: seq<real>, sells: seq<real>, k: nat)
    requires forall i :: 0 <= i < |buys| ==> buys[i] > 0.0
    requires k <= Min(|buys|, |sells|)
    ensures Winning(Profits(buys, sells)[..k]) == Rises(buys, sells, k)
  {
    if k > 0 {
      var p := Profits(buys, sells);
      assert p[..k][..k - 1] == p[..k - 1];
      WinningIsRises(buys, sells, k - 1);
      var b, s := buys[k - 1], sells[k - 1];
      assert p[k - 1] == (s - b) / b;
      assert (s - b) / b * b == s - b;
    }
  }

  /** `winning / pairs * 100`, or 0 without pairs. */
  function WinRate(winning: nat, pairs: nat): (r: real)
    requires winning <= pairs
    ensures 0.0 <= r <= 100.0
    ensures r == 100.0 <==> pairs > 0 && winning == pairs
    ensures r == 0.0 <==> winning == 0
  {
    if pairs > 0 then
      var ratio := winning as real / pairs as real;
      Fraction(winning as real, pairs as real);
      ratio * 100.0
    else 0.0
  }

  /** A share of a positive whole lies in [0, 1], and is 1 or 0 exactly at the ends. */
  lemma Fraction(part: real, whole: real)
    requires 0.0 <= part <= whole && whole > 0.0
    ensures 0.0 <= part / whole <= 1.0
    ensures part / whole == 1.0 <==> part == whole
    ensures part / whole == 0.0 <==> part == 0.0
  {
    var q := part / whole;
    assert q * whole == part;
    assert (1.0 - q) * whole == whole - part;
  }

  /** `(final - initial) / initial * 100`. */
  function TotalReturn(finalEquity: real, initialCapital: real): (r: real)
    requires initialCapital > 0.0
    ensures finalEquity == initialCapital * (1.0 + r / 100.0)
    ensures r >= -100.0 <==> finalEquity >= 0.0
    ensures r > -100.0 <==> finalEquity > 0.0
    ensures r > 0.0 <==> finalEquity > initialCapital
  {
    var ratio := (finalEquity - initialCapital) / initialCapital;
    assert ratio * initialCapital == finalEquity - initialCapital;
    ratio * 100.0
  }

  /** `cummax()` of the equity column at row t. */
  function RunningMax(equity: seq<real>, t: nat): (m: real)
    requires t < |equity|
    ensures forall j :: 0 <= j <= t ==> equity[j] <= m
    ensures exists j :: 0 <= j <= t && equity[j] == m
  {
    if t == 0 then equity[0]
    else var previous := RunningMax(equity, t - 1); if equity[t] > previous then equity[t] else previous
  }

  /** Row t of `(equity - running max) / running max`. */
  function Drawdown(equity: seq<real>, t: nat): (d: real)
    requires t < |equity| && equity[0] > 0.0
    ensures d <= 0.0
    ensures d == 0.0 <==> equity[t] == RunningMax(equity, t)
    ensures equity[t] >= 0.0 ==> d >= -1.0
  {
    var peak := RunningMax(equity, t);
    assert equity[0] <= peak && equity[t] <= peak;
    BelowPeak(equity[t], peak);
    (equity[t] - peak) / peak
  }

  /** The relative distance of a value below a positive peak is in [-1, 0] for a non-negative value, and 0 only at the peak. */
  lemma BelowPeak(value: real, peak: real)
    requires peak > 0.0 && value <= peak
    ensures (value - peak) / peak <= 0.0
    ensures (value - peak) / peak == 0.0 <==> value == peak
    ensures value >= 0.0 ==> (value - peak) / peak >= -1.0
  {
    var d := (value - peak) / peak;
    assert d * peak == value - peak;
    assert (d + 1.0) * peak == value;
  }

  /** The smallest drawdown over rows 0 .. k - 1. */
  function MinDrawdown(equity: seq<real>, k: nat): (m: real)
    requires 1 <= k <= |equity| && equity[0] > 0.0
    ensures forall t :: 0 <= t < k ==> m <= Drawdown(equity, t)
    ensures exists t :: 0 <= t < k && m == Drawdown(equity, t)
  {
    if k == 1 then Drawdown(equity, 0)
    else
      var previous := MinDrawdown(equity, k - 1);
      var d := Drawdown(equity, k - 1);
      if d < previous then d else previous
  }

  /** `daily_drawdown.min() * 100`, or 0 for an empty column. */
  function MaxDrawdownPct(equity: seq<real>): real
    requires |equity| == 0 || equity[0] > 0.0
  {
    if |equity| == 0 then 0.0 else MinDrawdown(equity, |equity|) * 100.0
  }

  /** The maximum drawdown is never positive, and never below -100 while equity stays non-negative. */
  lemma DrawdownBounds(equity: seq<real>)
    requires |equity| == 0 || equity[0] > 0.0
    ensures MaxDrawdownPct(equity) <= 0.0
    ensures (forall t :: 0 <= t < |equity| ==> equity[t] >= 0.0) ==> MaxDrawdownPct(equity) >= -100.0
  {
    if |equity| > 0 {
      var m := MinDrawdown(equity, |equity|);
      var t :| 0 <= t < |equity| && m == Drawdown(equity, t);
    }
  }

  /** No drawdown exactly when every row is at its running peak, i.e. equity never falls. */
  lemma NoDrawdownAtPeak(equity: seq<real>)
    requires |equity| > 0 && equity[0] > 0.0
    ensures MaxDrawdownPct(equity) == 0.0 <==> forall t :: 0 <= t < |equity| ==> equity[t] == RunningMax(equity, t)
  {
    var m := MinDrawdown(equity, |equity|);
    assert MaxDrawdownPct(equity) == m * 100.0;
    assert MaxDrawdownPct(equity) == 0.0 <==> m == 0.0;
    if m == 0.0 {
      forall j | 0 <= j < |equity| ensures equity[j] == RunningMax(equity, j) {
        assert m <= Drawdown(equity, j);
      }
    } else {
      var t :| 0 <= t < |equity| && m == Drawdown(equity, t);
      assert equity[t] != RunningMax(equity, t);
    }
  }

  /** The metrics record. */
  datatype Summary = Summary(
    initialCapital: real,
    finalEquity: real,
    totalReturnPct: real,
    tradeCount: nat,
    winningTrades: nat,
    pairedTrades: nat,
    winRatePct: real,
    maxDrawdownPct: real)

  /** What `get_metrics` returns for a finished, non-empty backtest. */
  function Summarize(initialCapital: real, closes: seq<real>, signals: seq<Signal>, equity: seq<real>): (m: Summary)
    requires initialCapital > 0.0
    requires |closes| == |signals| == |equity| > 0
    requires forall t :: 0 <= t < |closes| ==> closes[t] > 0.0
    requires equity[0] > 0.0
  {
    var buys := PricesOf(closes, signals, Buy);
    var sells := PricesOf(closes, signals, Sell);
    var pairs := Min(|buys|, |sells|);
    var winning := Winning(Profits(buys, sells));
    var finalEquity := equity[|equity| - 1];
    Summary(
      initialCapital,
      finalEquity,
      TotalReturn(finalEquity, initialCapital),
      TradeCount(signals),
      winning,
      pairs,
      WinRate(winning, pairs),
      MaxDrawdownPct(equity))
  }

  /**
   * The record's promises: pairs are min(#Buy, #Sell), a win is a pair whose Sell close is
   * above its Buy close, the win rate lies in [0, 100] and is 0 without pairs, the trade count
   * is every row but the Hold rows, the final equity is the last row's, and the
   * drawdown lies in [-100, 0] for non-negative equity.
   */
  lemma SummaryFacts(initialCapital: real, closes: seq<real>, signals: seq<Signal>, equity: seq<real>)
    requires initialCapital > 0.0
    requires |closes| == |signals| == |equity| > 0
    requires forall t :: 0 <= t < |closes| ==> closes[t] > 0.0
    requires equity[0] > 0.0
    ensures var m := Summarize(initialCapital, closes, signals, equity);
      var buys := PricesOf(closes, signals, Buy);
      var sells := PricesOf(closes, signals, Sell);
      && m.pairedTrades == Min(CountOf(signals, Buy), CountOf(signals, Sell))
      && m.winningTrades == Rises(buys, sells, m.pairedTrades)
      && m.winningTrades <= m.pairedTrades
      && 0.0 <= m.winRatePct <= 100.0
      && (m.pairedTrades == 0 ==> m.winRatePct == 0.0)
      && m.tradeCount == |signals| - CountOf(signals, Hold)
      && m.finalEquity == equity[|equity| - 1]
      && m.maxDrawdownPct <= 0.0
      && ((forall t :: 0 <= t < |equity| ==> equity[t] >= 0.0) ==> m.maxDrawdownPct >= -100.0)
  {
    var buys := PricesOf(closes, signals, Buy);
    var sells := PricesOf(closes, signals, Sell);
    var p := Profits(buys, sells);
    var m := Summarize(initialCapital, closes, signals, equity);
    assert m.pairedTrades == Min(|buys|, |sells|) == |p|;
    assert m.winningTrades == Winning(p);
    assert m.winningTrades == Rises(buys, sells, m.pairedTrades) by {
      WinningIsRises(buys, sells, |p|);
      assert p[..|p|] == p;
    }
    assert m.tradeCount == |signals| - CountOf(signals, Hold) by {
      TradeCountSplit(signals);
    }
    assert m.maxDrawdownPct == MaxDrawdownPct(equity);
    DrawdownBounds(equity);
  }

  /**
   * The record's return is the total return of the last row's equity over the capital, so
   * by TotalReturn's contract it is positive exactly when the run ends above its capital.
   */
  lemma SummaryReturn(initialCapital: real, closes: seq<real>, signals: seq<Signal>, equity: seq<real>)
    requires initialCapital > 0.0
    requires |closes| == |signals| == |equity| > 0
    requires forall t :: 0 <= t < |closes| ==> closes[t] > 0.0
    requires equity[0] > 0.0
    ensures var m := Summarize(initialCapital, closes, signals, equity);
      && m.initialCapital == initialCapital
      && m.finalEquity == equity[|equity| - 1]
      && m.totalReturnPct == TotalReturn(equity[|equity| - 1], initialCapital)
  {
  }
}
