/**
 * Moving-average crossover strategy (strategies/moving_average_strategy.py).
 *
 * The per-row state is the sign of short MA minus long MA (0 while either is undefined);
 * the emitted signal is the sign of the change of that state from the previous row.
 */
module MovingAverageStrategy {
  import opened Wrappers
  import opened Signals
  import Rolling

  const DefaultShortWindow: nat := 3
  const DefaultLongWindow: nat := 5

  /** The column before differencing: 0, then 1 where short > long, then -1 where short < long. */
  function RawState(closes: seq<real>, shortWindow: nat, longWindow: nat, t: nat): (r: int)
    requires t < |closes|
    ensures -1 <= r <= 1
  {
    match (Rolling.Mean(closes, shortWindow, t), Rolling.Mean(closes, longWindow, t))
    case (Some(s), Some(l)) => if s > l then 1 else if s < l then -1 else 0
    case _ => 0
  }

  function RawStates(closes: seq<real>, shortWindow: nat, longWindow: nat): (raw: seq<int>)
    ensures |raw| == |closes|
    ensures forall t :: 0 <= t < |raw| ==> -1 <= raw[t] <= 1
  {
    seq(|closes|, t requires 0 <= t < |closes| => RawState(closes, shortWindow, longWindow, t))
  }

  /** The three masked overwrites after differencing: 2 becomes 1, -2 becomes -1, anything not 1 or -1 becomes 0. */
  function Clamp(d: int): (r: int)
    ensures -1 <= r <= 1
    ensures r == 1 <==> d == 1 || d == 2
    ensures r == -1 <==> d == -1 || d == -2
  {
    var d1 := if d == 2 then 1 else d;
    var d2 := if d1 == -2 then -1 else d1;
    if d2 == 1 || d2 == -1 then d2 else 0
  }

  /** Row t of the difference of the state column, its first (NaN) entry filled by 0, then clamped. */
  function Edge(raw: seq<int>, t: nat): Signal
    requires t < |raw|
  {
    FromCode(Clamp(if t == 0 then 0 else raw[t] - raw[t - 1]))
  }

  function EdgeSignals(raw: seq<int>): (s: seq<Signal>)
    ensures |s| == |raw|
  {
    seq(|raw|, t requires 0 <= t < |raw| => Edge(raw, t))
  }

  /** `generate_signals`: one signal per row. */
  function GenerateSignals(closes: seq<real>, shortWindow: nat, longWindow: nat): (s: seq<Signal>)
    ensures |s| == |closes|
  {
    EdgeSignals(RawStates(closes, shortWindow, longWindow))
  }

  predicate Ternary(raw: seq<int>) {
    forall t :: 0 <= t < |raw| ==> -1 <= raw[t] <= 1
  }

  /**
   * The signal is the sign of the change of state: Buy on any rise (including -1 to 0),
   * Sell on any fall (including 1 to 0), Hold on row 0 and wherever the state is unchanged.
   */
  lemma EdgeIsSignOfChange(raw: seq<int>, t: nat)
    requires Ternary(raw) && t < |raw|
    ensures EdgeSignals(raw)[t] == Buy <==> t > 0 && raw[t] > raw[t - 1]
    ensures EdgeSignals(raw)[t] == Sell <==> t > 0 && raw[t] < raw[t - 1]
    ensures EdgeSignals(raw)[t] == Hold <==> t == 0 || raw[t] == raw[t - 1]
  {
  }

  /** While the state stays constant no signal is emitted. */
  lemma ConstantStateHolds(raw: seq<int>, a: nat, b: nat)
    requires Ternary(raw) && a <= b < |raw|
    requires forall t :: a <= t <= b ==> raw[t] == raw[a]
    ensures forall t :: a < t <= b ==> EdgeSignals(raw)[t] == Hold
  {
    forall t | a < t <= b ensures EdgeSignals(raw)[t] == Hold {
      EdgeIsSignOfChange(raw, t);
    }
  }

  /** Wherever the state falls between rows a and b, a Sell is emitted in rows a+1 .. b. */
  lemma {:induction false} FallHasSell(raw: seq<int>, a: nat, b: nat)
    requires Ternary(raw) && a <= b < |raw| && raw[a] > raw[b]
    ensures exists t :: a < t <= b && EdgeSignals(raw)[t] == Sell
    decreases b - a
  {
    EdgeIsSignOfChange(raw, b);
    if raw[b] >= raw[b - 1] {
      FallHasSell(raw, a, b - 1);
    }
  }

  /**
   * Edge detection does not stop a second Buy: with three states a rise can happen twice
   * (-1 to 0, then 0 to 1) before any Sell. It does stop a third one.
   */
  lemma NoThreeBuysWithoutSell(raw: seq<int>, i: nat, j: nat, k: nat)
    requires Ternary(raw) && i < j < k < |raw|
    requires EdgeSignals(raw)[i] == Buy && EdgeSignals(raw)[j] == Buy && EdgeSignals(raw)[k] == Buy
    ensures exists t :: i < t < k && EdgeSignals(raw)[t] == Sell
  {
    EdgeIsSignOfChange(raw, i);
    EdgeIsSignOfChange(raw, j);
    EdgeIsSignOfChange(raw, k);
    if raw[i] > raw[j - 1] {
      FallHasSell(raw, i, j - 1);
    } else {
      FallHasSell(raw, j, k - 1);
    }
  }

  /** The literal behaviour of the clamping: a return to equality is itself a signal. */
  lemma ReturnToEqualitySignals()
    ensures EdgeSignals([-1, 0, 1]) == [Hold, Buy, Buy]
    ensures EdgeSignals([1, 0, -1]) == [Hold, Sell, Sell]
  {
    var up, down := EdgeSignals([-1, 0, 1]), EdgeSignals([1, 0, -1]);
    assert up[0] == Hold && up[1] == Buy && up[2] == Buy;
    assert down[0] == Hold && down[1] == Sell && down[2] == Sell;
  }

  /**
   * From closes: with windows 1 and 2 the closes 3, 1, 2, 2 put the short mean below, above,
   * then level with the long one, so the signals are Hold, Sell, Buy and a Sell on the return
   * to equality.
   */
  lemma ClosesExample()
    ensures GenerateSignals([3.0, 1.0, 2.0, 2.0], 1, 2) == [Hold, Sell, Buy, Sell]
  {
    var closes := [3.0, 1.0, 2.0, 2.0];
    assert closes[0..1] == [3.0] && closes[0..2] == [3.0, 1.0];
    assert closes[1..2] == [1.0] && closes[1..3] == [1.0, 2.0];
    assert closes[2..3] == [2.0] && closes[2..4] == [2.0, 2.0];
    assert closes[3..4] == [2.0];
    var raw := RawStates(closes, 1, 2);
    assert raw[0] == 0 && raw[1] == -1 && raw[2] == 1 && raw[3] == 0;
    var s := GenerateSignals(closes, 1, 2);
    assert s[0] == Hold && s[1] == Sell && s[2] == Buy && s[3] == Sell;
  }

  /** Before both rolling means exist (never, for a window of 0) the state is 0 and no signal is emitted. */
  lemma WarmUpHolds(closes: seq<real>, shortWindow: nat, longWindow: nat, t: nat)
    requires t < |closes|
    requires shortWindow == 0 || longWindow == 0 || t + 1 < shortWindow || t + 1 < longWindow
    ensures RawState(closes, shortWindow, longWindow, t) == 0
    ensures GenerateSignals(closes, shortWindow, longWindow)[t] == Hold
  {
    var raw := RawStates(closes, shortWindow, longWindow);
    EdgeIsSignOfChange(raw, t);
  }

  /** Once both means exist, the state is the sign of short mean minus long mean. */
  lemma StateIsSignOfSpread(closes: seq<real>, shortWindow: nat, longWindow: nat, t: nat)
    requires shortWindow >= 1 && longWindow >= 1 && t < |closes|
    requires t + 1 >= shortWindow && t + 1 >= longWindow
    ensures var short, long := Rolling.Mean(closes, shortWindow, t).value, Rolling.Mean(closes, longWindow, t).value;
      && (RawState(closes, shortWindow, longWindow, t) == 1 <==> short > long)
      && (RawState(closes, shortWindow, longWindow, t) == -1 <==> short < long)
      && (RawState(closes, shortWindow, longWindow, t) == 0 <==> short == long)
  {
  }

  /**
   * On the first row where both means exist (row max(short, long) - 1, if that is not row 0)
   * the previous state is 0, so the signal there is Buy on state 1 and Sell on state -1.
   */
  lemma FirstDefinedRowState(closes: seq<real>, shortWindow: nat, longWindow: nat, m: nat)
    requires shortWindow >= 1 && longWindow >= 1 && m < |closes|
    requires m == (if shortWindow > longWindow then shortWindow - 1 else longWindow - 1) && m >= 1
    ensures GenerateSignals(closes, shortWindow, longWindow)[m] == Buy <==> RawState(closes, shortWindow, longWindow, m) == 1
    ensures GenerateSignals(closes, shortWindow, longWindow)[m] == Sell <==> RawState(closes, shortWindow, longWindow, m) == -1
  {
    var raw := RawStates(closes, shortWindow, longWindow);
    assert raw[m - 1] == 0 by {
      WarmUpHolds(closes, shortWindow, longWindow, m - 1);
    }
    assert raw[m] == RawState(closes, shortWindow, longWindow, m);
    EdgeIsSignOfChange(raw, m);
  }

  /** So on that row a signal fires whenever the two means differ. */
  lemma FirstDefinedRowSignals(closes: seq<real>, shortWindow: nat, longWindow: nat, m: nat)
    requires shortWindow >= 1 && longWindow >= 1 && m < |closes|
    requires m == (if shortWindow > longWindow then shortWindow - 1 else longWindow - 1) && m >= 1
    ensures Rolling.Mean(closes, shortWindow, m).Some? && Rolling.Mean(closes, longWindow, m).Some?
    ensures GenerateSignals(closes, shortWindow, longWindow)[m] == Buy
            <==> Rolling.Mean(closes, shortWindow, m).value > Rolling.Mean(closes, longWindow, m).value
    ensures GenerateSignals(closes, shortWindow, longWindow)[m] == Sell
            <==> Rolling.Mean(closes, shortWindow, m).value < Rolling.Mean(closes, longWindow, m).value
  {
    FirstDefinedRowState(closes, shortWindow, longWindow, m);
    StateIsSignOfSpread(closes, shortWindow, longWindow, m);
  }
}
