/**
 * The backtester (backtester.py): a cash / share-count state machine driven row by row by a
 * strategy's signals, and the metrics derived from the rows it records.
 */
module Backtesting {
  import opened Wrappers
  import opened Signals
  import Strategies
  import Metrics

  const DefaultInitialCapital: real := 100000.0

  /** The backtester's trading state: cash and an integer number of shares. */
  datatype Portfolio = Portfolio(cash: real, shares: nat)

  /** Cash plus the holdings valued at `price`. */
  function Value(p: Portfolio, price: real): real
  {
    p.cash + p.shares as real * price
  }

  /** Cash never negative, and something held: the state every row keeps. */
  predicate Solvent(p: Portfolio)
  {
    p.cash >= 0.0 && (p.cash > 0.0 || p.shares > 0)
  }

  /** `int(cash / price)` for positive cash: the whole shares the cash can pay for. */
  lemma Affordable(cash: real, price: real)
    requires cash > 0.0 && price > 0.0
    ensures var k := (cash / price).Floor;
      && k >= 0
      && k as real * price <= cash < k as real * price + price
      && (k == 0 <==> cash < price)
  {
    var q := cash / price;
    assert q * price == cash;
    FloorScaled(q, price, cash);
    var k := q.Floor;
    if k == 0 {
      assert k as real * price == 0.0;
    } else {
      assert 1.0 <= k as real;
      ScaleBelow(1.0, k as real, price);
      assert 1.0 * price == price;
      assert price <= cash;
    }
  }

  /** The floor of a positive quotient brackets it, and its multiples of the price bracket the amount. */
  lemma FloorScaled(q: real, price: real, amount: real)
    requires q > 0.0 && price > 0.0 && q * price == amount
    ensures var k := q.Floor;
      && k >= 0
      && k as real * price <= amount < k as real * price + price
  {
    var below: real := q.Floor as real;
    assert below <= q < below + 1.0;
    ScaleBelow(q - below, 1.0, price);
    assert 1.0 * price == price;
    assert (q - below) * price == q * price - below * price;
    assert amount < below * price + price;
    ScaleBelow(below, q, price);
  }

  /** Multiplying by a positive price keeps the order. */
  lemma ScaleBelow(a: real, b: real, price: real)
    requires price > 0.0
    ensures a <= b ==> a * price <= b * price
    ensures a < b ==> a * price < b * price
  {
    assert b * price - a * price == (b - a) * price;
  }

  /**
   * One row of `run`: a Buy with cash buys every affordable share, a Sell with shares
   * liquidates them all, anything else (Hold, NaN, a Buy that affords nothing, a Sell while
   * flat) leaves the state alone.
   */
  function Step(p: Portfolio, price: real, s: Signal): (r: Portfolio)
    requires price > 0.0
    ensures s != Buy && s != Sell ==> r == p
    ensures r == p || (s == Buy && r.shares > p.shares) || (s == Sell && p.shares > 0 && r.shares == 0)
  {
    if s == Buy && p.cash > 0.0 then
      var sharesToBuy := (p.cash / price).Floor;
      if sharesToBuy > 0 then Portfolio(p.cash - sharesToBuy as real * price, p.shares + sharesToBuy) else p
    else if s == Sell && p.shares > 0 then
      Portfolio(p.cash + p.shares as real * price, 0)
    else p
  }

  /**
   * Trades happen at the row's close, so a step never changes what the state is worth at
   * that close, and it never leaves a solvent state insolvent.
   */
  lemma StepKeepsValue(p: Portfolio, price: real, s: Signal)
    requires price > 0.0
    ensures Value(Step(p, price, s), price) == Value(p, price)
    ensures Solvent(p) ==> Solvent(Step(p, price, s))
  {
    if s == Buy && p.cash > 0.0 {
      Affordable(p.cash, price);
    }
  }

  /** A Buy with cash adds floor(cash / price) shares and leaves less cash than one share costs. */
  lemma BuyRule(p: Portfolio, price: real)
    requires price > 0.0 && p.cash > 0.0
    ensures var q := Step(p, price, Buy);
      var k := (p.cash / price).Floor;
      && q.shares == p.shares + k
      && q.cash == p.cash - k as real * price
      && 0.0 <= q.cash < price
      && (k == 0 <==> p.cash < price)
  {
    Affordable(p.cash, price);
  }

  /** A Sell while holding shares turns all of them into cash at the close. */
  lemma SellRule(p: Portfolio, price: real)
    requires price > 0.0 && p.shares > 0
    ensures Step(p, price, Sell) == Portfolio(p.cash + p.shares as real * price, 0)
  {
  }

  /** The cases that change nothing. */
  lemma NoOpRule(p: Portfolio, price: real, s: Signal)
    requires price > 0.0
    requires || s == Hold || s == Missing
             || (s == Buy && p.cash < price)
             || (s == Sell && p.shares == 0)
    ensures Step(p, price, s) == p
  {
    if s == Buy && p.cash > 0.0 {
      Affordable(p.cash, price);
    }
  }

  predicate PositiveCloses(closes: seq<real>)
  {
    forall t :: 0 <= t < |closes| ==> closes[t] > 0.0
  }

  /** The state after the first i rows. */
  function After(start: Portfolio, closes: seq<real>, signals: seq<Signal>, i: nat): Portfolio
    requires i <= |closes| == |signals| && PositiveCloses(closes)
  {
    if i == 0 then start else Step(After(start, closes, signals, i - 1), closes[i - 1], signals[i - 1])
  }

  /** Every row keeps the state solvent. */
  lemma {:induction false} AfterSolvent(start: Portfolio, closes: seq<real>, signals: seq<Signal>, i: nat)
    requires i <= |closes| == |signals| && PositiveCloses(closes) && Solvent(start)
    ensures Solvent(After(start, closes, signals, i))
  {
    if i > 0 {
      AfterSolvent(start, closes, signals, i - 1);
      StepKeepsValue(After(start, closes, signals, i - 1), closes[i - 1], signals[i - 1]);
    }
  }

  /** A column of NaN: what a strategy's series becomes when none of its labels is in the frame. */
  function Unmatched(n: nat): (s: seq<Signal>)
    ensures |s| == n
    ensures forall t :: 0 <= t < n ==> s[t] == Missing
  {
    seq(n, _ => Missing)
  }

  /** With NaN on every row no trade happens: every prefix leaves the state as it started. */
  lemma {:induction false} UnmatchedKeepsState(start: Portfolio, closes: seq<real>, i: nat)
    requires i <= |closes| && PositiveCloses(closes)
    ensures After(start, closes, Unmatched(|closes|), i) == start
  {
    if i > 0 {
      UnmatchedKeepsState(start, closes, i - 1);
      NoOpRule(start, closes[i - 1], Missing);
    }
  }

  /** The state recorded on row t: the state after row t's own trade. */
  function Row(start: Portfolio, closes: seq<real>, signals: seq<Signal>, t: nat): Portfolio
    requires t < |closes| == |signals| && PositiveCloses(closes)
  {
    After(start, closes, signals, t + 1)
  }

  /** The result columns `run` writes, one entry per row. */
  datatype Results = Results(close: seq<real>, signal: seq<Signal>, cash: seq<real>, shares: seq<nat>, equity: seq<real>)

  /** Row t records the state after its own trade and that state's value at its close. */
  function Simulate(start: Portfolio, closes: seq<real>, signals: seq<Signal>): (r: Results)
    requires |closes| == |signals| && PositiveCloses(closes)
    ensures r.close == closes && r.signal == signals
    ensures |r.cash| == |r.shares| == |r.equity| == |closes|
  {
    var n := |closes|;
    Results(closes, signals,
      seq(n, t requires 0 <= t < n => Row(start, closes, signals, t).cash),
      seq(n, t requires 0 <= t < n => Row(start, closes, signals, t).shares),
      seq(n, t requires 0 <= t < n => Value(Row(start, closes, signals, t), closes[t])))
  }

  /**
   * Row t's columns hold its recorded state and that state's value at its close, so its
   * equity is its cash plus its shares at its close.
   */
  lemma RowColumns(start: Portfolio, closes: seq<real>, signals: seq<Signal>, t: nat)
    requires |closes| == |signals| && PositiveCloses(closes) && t < |closes|
    ensures var r := Simulate(start, closes, signals); var p := Row(start, closes, signals, t);
      && r.cash[t] == p.cash && r.shares[t] == p.shares && r.equity[t] == Value(p, closes[t])
      && r.equity[t] == r.cash[t] + r.shares[t] as real * closes[t]
  {
  }

  /** Trading at row t's close does not change what the holdings are worth at that close. */
  lemma RowValue(start: Portfolio, closes: seq<real>, signals: seq<Signal>, t: nat)
    requires |closes| == |signals| && PositiveCloses(closes) && t < |closes|
    ensures Value(Row(start, closes, signals, t), closes[t]) == Value(After(start, closes, signals, t), closes[t])
  {
    StepKeepsValue(After(start, closes, signals, t), closes[t], signals[t]);
  }

  /**
   * Every row's equity equals the value of the holdings it started with at that same close,
   * and stays positive, with non-negative cash, from a solvent start.
   */
  lemma RowEquity(start: Portfolio, closes: seq<real>, signals: seq<Signal>, t: nat)
    requires |closes| == |signals| && PositiveCloses(closes) && t < |closes|
    ensures var r := Simulate(start, closes, signals);
      && r.equity[t] == Value(After(start, closes, signals, t), closes[t])
      && (Solvent(start) ==> r.equity[t] > 0.0 && r.cash[t] >= 0.0)
  {
    RowColumns(start, closes, signals, t);
    RowValue(start, closes, signals, t);
    if Solvent(start) {
      AfterSolvent(start, closes, signals, t + 1);
      ValuePositive(Row(start, closes, signals, t), closes[t]);
    }
  }

  /** A solvent state is worth something at any positive price. */
  lemma ValuePositive(p: Portfolio, price: real)
    requires Solvent(p) && price > 0.0
    ensures Value(p, price) > 0.0
  {
    if p.shares > 0 {
      ScaleBelow(0.0, p.shares as real, price);
    } else {
      ScaleBelow(0.0, 0.0, price);
    }
  }

  /** The row of a Sell signal always holds no shares. */
  lemma FlatAfterSell(start: Portfolio, closes: seq<real>, signals: seq<Signal>, t: nat)
    requires |closes| == |signals| && PositiveCloses(closes) && t < |closes| && signals[t] == Sell
    ensures Simulate(start, closes, signals).shares[t] == 0
  {
  }

  /** The first row's equity is the starting value at the first close: the capital, for a fresh backtester. */
  lemma FirstRowEquity(capital: real, closes: seq<real>, signals: seq<Signal>)
    requires |closes| == |signals| > 0 && PositiveCloses(closes)
    ensures Simulate(Portfolio(capital, 0), closes, signals).equity[0] == capital
  {
    RowEquity(Portfolio(capital, 0), closes, signals, 0);
  }

  /** Capital 1000, closes 100, 110, 90, signals Buy, Hold, Sell. */
  lemma SimulationExample()
    ensures var r := Simulate(Portfolio(1000.0, 0), [100.0, 110.0, 90.0], [Buy, Hold, Sell]);
      && r.shares == [10, 10, 0]
      && r.cash == [0.0, 0.0, 900.0]
      && r.equity == [1000.0, 1100.0, 900.0]
  {
    var closes, signals := [100.0, 110.0, 90.0], [Buy, Hold, Sell];
    var start := Portfolio(1000.0, 0);
    assert (1000.0 / 100.0).Floor == 10;
    assert After(start, closes, signals, 1) == Portfolio(0.0, 10);
    assert After(start, closes, signals, 2) == Portfolio(0.0, 10);
    assert After(start, closes, signals, 3) == Portfolio(900.0, 0);
    var r := Simulate(start, closes, signals);
    assert r.shares[0] == 10 && r.shares[1] == 10 && r.shares[2] == 0;
    assert r.cash[0] == 0.0 && r.cash[1] == 0.0 && r.cash[2] == 900.0;
    assert r.equity[0] == 1000.0 && r.equity[1] == 1100.0 && r.equity[2] == 900.0;
  }

  /** The trades of that run: one Buy at 100, one Sell at 90. */
  lemma TradesExample()
    ensures Metrics.PricesOf([100.0, 110.0, 90.0], [Buy, Hold, Sell], Buy) == [100.0]
    ensures Metrics.PricesOf([100.0, 110.0, 90.0], [Buy, Hold, Sell], Sell) == [90.0]
    ensures Metrics.TradeCount([Buy, Hold, Sell]) == 2
  {
    var signals := [Buy, Hold, Sell];
    assert signals[..2][..1] == [Buy] && signals[..2] == [Buy, Hold] && signals[..3] == signals;
    assert Metrics.RowsOf([Buy], Buy) == [0];
    assert Metrics.RowsOf(signals, Buy) == [0];
    assert Metrics.RowsOf(signals, Sell) == [2];
  }

  /** The equity of that run peaks at 1100 and ends 200 below it. */
  lemma DrawdownExample()
    ensures Metrics.MaxDrawdownPct([1000.0, 1100.0, 900.0]) == -200.0 / 1100.0 * 100.0
  {
    var equity := [1000.0, 1100.0, 900.0];
    assert Metrics.RunningMax(equity, 2) == 1100.0;
    assert Metrics.Drawdown(equity, 0) == 0.0;
    assert Metrics.Drawdown(equity, 1) == 0.0;
    assert Metrics.Drawdown(equity, 2) == -200.0 / 1100.0;
    assert Metrics.MinDrawdown(equity, 3) == -200.0 / 1100.0;
  }

  /** The same run's metrics: two trades, one losing pair, -10% return, -200/1100 drawdown. */
  lemma MetricsExample()
    ensures var m := Metrics.Summarize(1000.0, [100.0, 110.0, 90.0], [Buy, Hold, Sell], [1000.0, 1100.0, 900.0]);
      && m.tradeCount == 2
      && m.pairedTrades == 1
      && m.winningTrades == 0
      && m.winRatePct == 0.0
      && m.totalReturnPct == -10.0
      && m.maxDrawdownPct == -200.0 / 1100.0 * 100.0
  {
    TradesExample();
    DrawdownExample();
    assert Metrics.Profits([100.0], [90.0]) == [-0.1];
  }

  /** From a solvent start, every recorded row has positive equity. */
  lemma SimulationRecorded(start: Portfolio, closes: seq<real>, signals: seq<Signal>)
    requires |closes| == |signals| && PositiveCloses(closes) && Solvent(start)
    ensures Recorded(Simulate(start, closes, signals), closes)
  {
    var r := Simulate(start, closes, signals);
    forall t | 0 <= t < |closes| ensures r.equity[t] > 0.0 {
      RowEquity(start, closes, signals, t);
    }
  }

  /**
   * The metrics of a recorded run: since every row's equity is positive, the total return
   * stays above -100%, the drawdown lies in [-100, 0] and the win rate in [0, 100].
   */
  lemma RecordedMetrics(initialCapital: real, r: Results, closes: seq<real>)
    requires initialCapital > 0.0 && PositiveCloses(closes) && |closes| > 0
    requires Recorded(r, closes)
    ensures var m := Metrics.Summarize(initialCapital, closes, r.signal, r.equity);
      && m.finalEquity > 0.0
      && m.totalReturnPct > -100.0
      && -100.0 <= m.maxDrawdownPct <= 0.0
      && 0.0 <= m.winRatePct <= 100.0
  {
    var final := r.equity[|r.equity| - 1];
    var totalReturn := Metrics.TotalReturn(final, initialCapital);
    assert final > 0.0;
    Metrics.SummaryFacts(initialCapital, closes, r.signal, r.equity);
    Metrics.SummaryReturn(initialCapital, closes, r.signal, r.equity);
  }

  /** A run over a NaN column records the starting cash and shares on every row. */
  lemma UnmatchedRecordsStart(start: Portfolio, closes: seq<real>)
    requires PositiveCloses(closes)
    ensures var r := Simulate(start, closes, Unmatched(|closes|));
      forall t :: 0 <= t < |closes| ==> r.cash[t] == start.cash && r.shares[t] == start.shares
  {
    var r := Simulate(start, closes, Unmatched(|closes|));
    forall t | 0 <= t < |closes| ensures r.cash[t] == start.cash && r.shares[t] == start.shares {
      UnmatchedKeepsState(start, closes, t + 1);
    }
  }

  /** The error `get_metrics` raises: no run yet, or an empty result frame (`iloc[-1]`). */
  datatype MetricsError = NotRun | NoRows

  /** The recorded columns of a run over `closes`, with positive equity on every row. */
  predicate Recorded(r: Results, closes: seq<real>)
  {
    && r.close == closes
    && |r.signal| == |r.cash| == |r.shares| == |r.equity| == |closes|
    && forall t :: 0 <= t < |r.equity| ==> r.equity[t] > 0.0
  }

  class Backtester {
    /** The closing-price column of the backtester's own copy of the frame. */
    const data: seq<real>
    const strategy: Strategies.Strategy
    const initialCapital: real
    var positions: nat
    var cash: real
    var results: Option<Results>
    /** How many runs have completed: the first one converts the frame's index to datetimes. */
    var runs: nat

    ghost predicate Valid()
      reads this
    {
      && initialCapital > 0.0
      && PositiveCloses(data)
      && Strategies.Admissible(strategy, |data|)
      && Solvent(Portfolio(cash, positions))
      && (results.Some? ==> Recorded(results.value, data))
    }

    /** `__init__`: all cash, no shares, no results. */
    constructor (data: seq<real>, strategy: Strategies.Strategy, initialCapital: real := DefaultInitialCapital)
      requires initialCapital > 0.0 && PositiveCloses(data) && Strategies.Admissible(strategy, |data|)
      ensures Valid()
      ensures this.data == data && this.strategy == strategy && this.initialCapital == initialCapital
      ensures cash == initialCapital && positions == 0 && results == None && runs == 0
    {
      this.data := data;
      this.strategy := strategy;
      this.initialCapital := initialCapital;
      positions := 0;
      cash := initialCapital;
      results := None;
      runs := 0;
    }

    /** The strategy's signals stored into the frame, NaN where the strategy's series has no row. */
    function FrameSignals(): (s: seq<Signal>)
      reads this
      requires Strategies.Admissible(strategy, |data|)
      ensures |s| == |data|
    {
      Align(Strategies.Generate(strategy, data), |data|)
    }

    /**
     * The signal column a run stores. The first run stores the strategy's series aligned
     * on the frame's row labels. That run also turns the frame's index into datetimes, so
     * on every later run none of the series' row labels matches and every row holds NaN.
     */
    function StoredSignals(): (s: seq<Signal>)
      reads this
      requires Strategies.Admissible(strategy, |data|)
      ensures |s| == |data|
    {
      if runs == 0 then FrameSignals() else Unmatched(|data|)
    }

    /**
     * `run`: trades row by row from the current cash and positions (a second run does not
     * reset them), writing each row's shares, cash and equity into its columns. Each run calls
     * the strategy again, which for a regression strategy must still fit its shrunk frame.
     */
    method Run() returns (r: Results)
      requires Valid()
      requires Strategies.Refittable(strategy, |data|, runs)
      modifies this
      ensures Valid()
      ensures r == Simulate(Portfolio(old(cash), old(positions)), data, old(StoredSignals()))
      ensures Portfolio(cash, positions) == After(Portfolio(old(cash), old(positions)), data, old(StoredSignals()), |data|)
      ensures results == Some(r) && runs == old(runs) + 1
    {
      var signals := StoredSignals();
      ghost var start := Portfolio(cash, positions);
      r := Replay(signals);
      SimulationRecorded(start, data, signals);
      AfterSolvent(start, data, signals, |data|);
      results := Some(r);
      runs := runs + 1;
    }

    /** `run`'s loop over the rows: trade at each close, then record the row's shares, cash and equity. */
    method Replay(signals: seq<Signal>) returns (r: Results)
      requires |signals| == |data| && PositiveCloses(data)
      modifies this
      ensures r == Simulate(old(Portfolio(cash, positions)), data, signals)
      ensures Portfolio(cash, positions) == After(old(Portfolio(cash, positions)), data, signals, |data|)
      ensures results == old(results) && runs == old(runs)
    {
      var n := |data|;
      var equityColumn := new real[n](_ => initialCapital);
      var sharesColumn := new nat[n](_ => 0);
      var cashColumn := new real[n](_ => initialCapital);
      ghost var start := Portfolio(cash, positions);
      ghost var recorded := Simulate(start, data, signals);

      var i := 0;
      while i < n
        invariant 0 <= i <= n
        invariant Portfolio(cash, positions) == After(start, data, signals, i)
        invariant results == old(results) && runs == old(runs)
        invariant forall t :: 0 <= t < i ==>
          cashColumn[t] == recorded.cash[t] && sharesColumn[t] == recorded.shares[t] && equityColumn[t] == recorded.equity[t]
      {
        var currentPrice := data[i];
        var signal := signals[i];
        Trade(currentPrice, signal);
        RowColumns(start, data, signals, i);
        assert Portfolio(cash, positions) == Row(start, data, signals, i);
        sharesColumn[i] := positions;
        cashColumn[i] := cash;
        equityColumn[i] := Value(Portfolio(cash, positions), currentPrice);
        i := i + 1;
      }

      r := Results(data, signals, cashColumn[..], sharesColumn[..], equityColumn[..]);
      assert r.cash == recorded.cash && r.shares == recorded.shares && r.equity == recorded.equity;
    }

    /**
     * One row of `run`'s loop: buy every affordable share on a Buy with cash, sell every
     * share on a Sell with shares, otherwise do nothing.
     */
    method Trade(currentPrice: real, signal: Signal)
      requires currentPrice > 0.0
      modifies this
      ensures Portfolio(cash, positions) == Step(old(Portfolio(cash, positions)), currentPrice, signal)
      ensures results == old(results) && runs == old(runs)
    {
      ghost var before := Portfolio(cash, positions);
      if signal == Buy && cash > 0.0 {
        var sharesToBuy := (cash / currentPrice).Floor;
        BuyRule(before, currentPrice);
        if sharesToBuy > 0 {
          positions := positions + sharesToBuy;
          cash := cash - sharesToBuy as real * currentPrice;
        }
      } else if signal == Sell && positions > 0 {
        var sharesToSell := positions;
        cash := cash + sharesToSell as real * currentPrice;
        positions := positions - sharesToSell;
      }
    }

    /** `get_metrics`: an error before `run` or on an empty frame, else the metrics record. */
    method GetMetrics() returns (m: Result<Metrics.Summary, MetricsError>)
      requires Valid()
      ensures results.None? ==> m == Failure(NotRun)
      ensures results.Some? && |data| == 0 ==> m == Failure(NoRows)
      ensures results.Some? && |data| > 0 ==>
        m == Success(Metrics.Summarize(initialCapital, data, results.value.signal, results.value.equity))
    {
      if results.None? {
        return Failure(NotRun);
      }
      var r := results.value;
      var tradeCount := Metrics.TradeCount(r.signal);
      var buys := Metrics.PricesOf(r.close, r.signal, Buy);
      var sells := Metrics.PricesOf(r.close, r.signal, Sell);
      var minPairs := Metrics.Min(|buys|, |sells|);
      var profits := Metrics.PairProfits(buys, sells);
      assert profits == Metrics.Profits(buys, sells);
      var winningTrades := Metrics.Winning(profits);
      var winRate := Metrics.WinRate(winningTrades, minPairs);
      if |r.equity| == 0 {
        return Failure(NoRows);
      }
      var finalValue := r.equity[|r.equity| - 1];
      var totalReturn := Metrics.TotalReturn(finalValue, initialCapital);
      var maxDrawdown := Metrics.MaxDrawdownPct(r.equity);
      m := Success(Metrics.Summary(initialCapital, finalValue, totalReturn, tradeCount,
                                   winningTrades, minPairs, winRate, maxDrawdown));
    }
  }
}
