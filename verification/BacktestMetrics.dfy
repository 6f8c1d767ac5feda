/** The backtest's metrics loops: drawdown, losing streak, and the transaction costs charged to each trade. */
module BacktestMetrics {
  import opened Common
  import opened Backtest
  import opened BacktestEngine

  // ---------------------------------------------------------------- drawdown

  /** How far `low` lies below `high`, as a fraction of `high`. */
  function Drop(high: real, low: real): real {
    if high > 0.0 then (high - low) / high else 0.0
  }

  /** The running peak: the highest of the initial balance and the points up to j. */
  function PeakAt(initial: real, equity: seq<real>, j: nat): (r: real)
    requires j < |equity|
    ensures initial <= r && forall i :: 0 <= i <= j ==> equity[i] <= r
    ensures r == initial || exists i :: 0 <= i <= j && equity[i] == r
  {
    Max(if j == 0 then initial else PeakAt(initial, equity, j - 1), equity[j])
  }

  function DropAt(initial: real, equity: seq<real>, j: nat): real
    requires j < |equity|
  {
    Drop(PeakAt(initial, equity, j), equity[j])
  }

  /** The loop's result over the first n points. */
  function WorstDrop(initial: real, equity: seq<real>, n: nat): real
    requires n <= |equity|
  {
    if n == 0 then 0.0 else Max(WorstDrop(initial, equity, n - 1), DropAt(initial, equity, n - 1))
  }

  /** It is the worst of the drops of all points from their running peaks, or zero. */
  lemma {:induction false} WorstDropIsWorst(initial: real, equity: seq<real>, n: nat)
    requires n <= |equity|
    ensures var r := WorstDrop(initial, equity, n);
            && r >= 0.0 && (forall j :: 0 <= j < n ==> DropAt(initial, equity, j) <= r)
            && (r == 0.0 || exists j :: 0 <= j < n && r == DropAt(initial, equity, j))
  {
    if n > 0 { WorstDropIsWorst(initial, equity, n - 1); }
  }

  method MaxDrawdown(initial: real, equity: seq<real>) returns (worst: real)
    ensures worst == WorstDrop(initial, equity, |equity|)
  {
    var peak := initial;
    worst := 0.0;
    for n := 0 to |equity|
      invariant peak == if n == 0 then initial else PeakAt(initial, equity, n - 1)
      invariant worst == WorstDrop(initial, equity, n)
    {
      peak := Max(peak, equity[n]);
      worst := Max(worst, Drop(peak, equity[n]));
      assert Drop(peak, equity[n]) == DropAt(initial, equity, n);
    }
  }

  /** Falling to the same low, the drop from a higher point is the larger one exactly when the low is not
      negative. */
  lemma DropFromHigher(a: real, b: real, low: real)
    requires 0.0 < a < b
    ensures Drop(a, low) <= Drop(b, low) <==> low >= 0.0
  {
    OneMinusDrop(a, low);
    OneMinusDrop(b, low);
    LargerDivisor(1.0 - Drop(a, low), 1.0 - Drop(b, low), a, b, low);
  }

  lemma LargerDivisor(u: real, v: real, a: real, b: real, x: real)
    requires 0.0 < a < b && u * a == x && v * b == x
    ensures v <= u <==> x >= 0.0
  {
    var d := b - a;
    assert v * b == v * a + v * d;
    Scales(v, u, a);
    Scales(0.0, v, d);
    Scales(0.0, v, b);
  }

  /** What is left after the drop, as a share of the high, is the low; nothing drops from a high of zero or below. */
  lemma OneMinusDrop(high: real, low: real)
    ensures high > 0.0 ==> (1.0 - Drop(high, low)) * high == low
    ensures high <= 0.0 ==> Drop(high, low) == 0.0
  {
    if high > 0.0 {
      var p := (high - low) / high;
      assert p * high == high - low;
    }
  }

  /** The drop to a point j from its running peak is at least the drop from an earlier positive point i exactly
      when point j is not negative, or point i is at the peak itself. */
  lemma {:induction false} PeakDropIsLargest(equity: seq<real>, i: nat, j: nat)
    requires i <= j < |equity| && equity[i] > 0.0
    ensures Drop(equity[i], equity[j]) <= DropAt(equity[0], equity, j)
            <==> equity[j] >= 0.0 || equity[i] == PeakAt(equity[0], equity, j)
  {
    var peak := PeakAt(equity[0], equity, j);
    if equity[i] < peak {
      DropFromHigher(equity[i], peak, equity[j]);
    }
  }

  /** On a curve that is never negative the one-pass loop computes the largest drop between any two points in
      order. */
  lemma DrawdownIsLargestPairDrop(equity: seq<real>)
    requires |equity| > 0 && equity[0] > 0.0 && forall k :: 0 <= k < |equity| ==> equity[k] >= 0.0
    ensures var worst := WorstDrop(equity[0], equity, |equity|);
            && (forall i, j :: 0 <= i <= j < |equity| ==> Drop(equity[i], equity[j]) <= worst)
            && exists i, j :: 0 <= i <= j < |equity| && Drop(equity[i], equity[j]) == worst
  {
    var worst := WorstDrop(equity[0], equity, |equity|);
    WorstDropIsWorst(equity[0], equity, |equity|);
    forall i, j | 0 <= i <= j < |equity| ensures Drop(equity[i], equity[j]) <= worst {
      if equity[i] > 0.0 { PeakDropIsLargest(equity, i, j); }
    }
    if worst == 0.0 {
      assert Drop(equity[0], equity[0]) == worst;
    } else {
      var j :| 0 <= j < |equity| && worst == DropAt(equity[0], equity, j);
      var i :| 0 <= i <= j && equity[i] == PeakAt(equity[0], equity, j);
      assert Drop(equity[i], equity[j]) == worst;
    }
  }

  /** Below zero it does not: here the loop reports 1.5, and the fall from the first point is 2. */
  lemma NegativeEquityHidesADrop()
    ensures var equity := [100.0, 200.0, -100.0];
            WorstDrop(100.0, equity, 3) == 1.5 && Drop(equity[0], equity[2]) == 2.0
  {
    var equity := [100.0, 200.0, -100.0];
    assert PeakAt(100.0, equity, 0) == 100.0 && PeakAt(100.0, equity, 1) == 200.0 && PeakAt(100.0, equity, 2) == 200.0;
    assert WorstDrop(100.0, equity, 1) == 0.0 && WorstDrop(100.0, equity, 2) == 0.0;
  }

  // ---------------------------------------------------------------- losing streak

  /** The n trades from index a on all lost. */
  predicate LosingRun(cs: seq<Closed>, a: int, n: int) {
    0 <= a && 0 <= n && a + n <= |cs| && forall k :: a <= k < a + n ==> cs[k].pnl < 0.0
  }

  /** The length of the longest contiguous run of losing trades. */
  method MaxLosingStreak(trades: seq<BacktestTrade>, ghost cs: seq<Closed>) returns (longest: nat)
    requires Shows(trades, cs)
    ensures exists a :: LosingRun(cs, a, longest)
    ensures forall a, n :: LosingRun(cs, a, n) ==> n <= longest
  {
    longest := 0;
    var current := 0;
    ghost var from := 0;
    for i := 0 to |trades|
      invariant 0 <= current <= i && current <= longest
      invariant LosingRun(cs, i - current, current) && (current == i || cs[i - current - 1].pnl >= 0.0)
      invariant LosingRun(cs, from, longest)
      invariant forall a, n :: LosingRun(cs, a, n) && a + n <= i ==> n <= longest
    {
      assert trades[i].IsClosed(cs[i]);
      if trades[i].pnl < 0.0 {
        current := current + 1;
        if current > longest {
          longest, from := current, i + 1 - current;
        }
      } else {
        current := 0;
      }
    }
  }

  // ---------------------------------------------------------------- costs

  /** Brokerage (capped), STT on the sell side, exchange and regulator fees, GST, stamp duty on the buy side,
      slippage on both. */
  function CostOf(buyValue: real, sellValue: real): real {
    var both := buyValue + sellValue;
    var brokerage := Min(both * 0.0003, 40.0);
    var exchange := both * 0.0000297;
    var regulator := both * 0.000001;
    brokerage + sellValue * 0.00025 + exchange + regulator + (brokerage + exchange + regulator) * 0.18
    + buyValue * 0.00003 + both * 0.0005
  }

  function TradeCost(c: Closed): real {
    var entryValue := Worth(c.trade.quantity, c.trade.entry);
    var exitValue := Worth(c.trade.quantity, c.exit);
    if c.trade.kind.Buy? then CostOf(entryValue, exitValue) else CostOf(exitValue, entryValue)
  }

  function TotalCost(cs: seq<Closed>): real {
    if cs == [] then 0.0 else TotalCost(cs[..|cs| - 1]) + TradeCost(cs[|cs| - 1])
  }

  function Charged(c: Closed): Closed { c.(pnl := c.pnl - TradeCost(c)) }

  function ChargedAll(cs: seq<Closed>): (r: seq<Closed>)
    ensures |r| == |cs| && forall k :: 0 <= k < |cs| ==> r[k] == Charged(cs[k])
  {
    seq(|cs|, k requires 0 <= k < |cs| => Charged(cs[k]))
  }

  method ChargeTrade(t: BacktestTrade, ghost c: Closed) returns (cost: real)
    requires t.IsClosed(c)
    modifies t`pnl
    ensures cost == TradeCost(c) && t.IsClosed(Charged(c))
  {
    var entryValue, exitValue := Worth(t.quantity, t.entry), Worth(t.quantity, t.exit);
    cost := if t.kind.Buy? then CostOf(entryValue, exitValue) else CostOf(exitValue, entryValue);
    t.pnl := t.pnl - cost;
  }

  /** The cost loop subtracts its cost from the profit of each trade, once, and adds the costs up. */
  method ChargeCosts(trades: seq<BacktestTrade>, ghost cs: seq<Closed>) returns (total: real)
    requires Shows(trades, cs)
    modifies trades
    ensures total == TotalCost(cs) && Shows(trades, ChargedAll(cs))
  {
    total := 0.0;
    for n := 0 to |trades|
      invariant total == TotalCost(cs[..n])
      invariant forall k :: 0 <= k < |trades| ==> trades[k].IsClosed(if k < n then Charged(cs[k]) else cs[k])
    {
      assert trades[n].IsClosed(cs[n]) && cs[..n + 1][..n] == cs[..n];
      var cost := ChargeTrade(trades[n], cs[n]);
      total := total + cost;
    }
    assert cs[..|cs|] == cs;
  }

  lemma {:induction false} ChargedProfit(cs: seq<Closed>)
    ensures Profit(ChargedAll(cs)) == Profit(cs) - TotalCost(cs)
  {
    if cs != [] {
      ChargedProfit(cs[..|cs| - 1]);
      assert ChargedAll(cs)[..|cs| - 1] == ChargedAll(cs[..|cs| - 1]);
    }
  }

  /** Costs are charged exactly once: after the cost loop the profits of all trades add up to the change of the
      balance less the total cost. */
  lemma CostsAreChargedOnce(s: Setup, bars: seq<Bar>)
    ensures var f := Finish(s, bars);
            Profit(ChargedAll(f.trades)) == f.balance - s.initial - TotalCost(f.trades)
  {
    LedgerBalances(s, bars);
    ChargedProfit(Finish(s, bars).trades);
  }

  /** The cost is linear in the two values: brokerage of 0.03 % on both and its tax while they make no more than 40,
      and 47.2 beyond; the seller's side pays 0.022 percentage points more than the buyer's. */
  ghost predicate IsCostOf(cost: real, buyValue: real, sellValue: real) {
    cost == if (buyValue + sellValue) * 0.0003 <= 40.0
            then buyValue * 0.000920226 + sellValue * 0.001140226
            else 47.2 + buyValue * 0.000566226 + sellValue * 0.000786226
  }

  /** A BUY buys at its entry and sells at its exit, a SELL the other way round. */
  lemma {:induction false} CostIsLinear(c: Closed)
    ensures var atEntry, atExit := c.trade.quantity as real * c.trade.entry, c.trade.quantity as real * c.exit;
            if c.trade.kind.Buy? then IsCostOf(TradeCost(c), atEntry, atExit)
            else IsCostOf(TradeCost(c), atExit, atEntry)
  {
    ValuesCost(Worth(c.trade.quantity, c.trade.entry), Worth(c.trade.quantity, c.exit));
    ValuesCost(Worth(c.trade.quantity, c.exit), Worth(c.trade.quantity, c.trade.entry));
  }

  lemma ValuesCost(buyValue: real, sellValue: real)
    ensures IsCostOf(CostOf(buyValue, sellValue), buyValue, sellValue)
  {
  }

  /** What a backtest reports of a trade is its gross result less its cost, and the trade as it was. */
  lemma {:induction false} NetIsGrossLessCost(s: Setup, bars: seq<Bar>, k: nat)
    requires k < |Finish(s, bars).trades|
    ensures var c := Finish(s, bars).trades[k];
            var net := ChargedAll(Finish(s, bars).trades)[k];
            && net.trade == c.trade && net.exit == c.exit && net.reason == c.reason && net.exitTime == c.exitTime
            && EarnsMove(c.trade.kind, c.trade.quantity, c.trade.entry, c.exit, net.pnl + TradeCost(c))
  {
    TradesComeFromSignals(s, bars, k);
  }

  /** No trade is traded for free, and costs never exceed a fixed share of the turnover. */
  lemma CostsAreBounded(buyValue: real, sellValue: real)
    requires buyValue > 0.0 && sellValue > 0.0
    ensures 0.0 < CostOf(buyValue, sellValue) < (buyValue + sellValue) * 0.0012
  {
  }

  /** A whole backtest: run it, measure the drawdown of its equity and the losing streak of its gross results,
      then charge the costs. */
  method Report(setup: Setup, bars: seq<Bar>)
    returns (final: real, trades: seq<BacktestTrade>, drawdown: real, streak: nat, costs: real)
    ensures var f := Finish(setup, bars);
            && final == f.balance && drawdown == WorstDrop(setup.initial, f.equity, |f.equity|)
            && (exists a :: LosingRun(f.trades, a, streak))
            && (forall a, n :: LosingRun(f.trades, a, n) ==> n <= streak)
            && costs == TotalCost(f.trades) && Shows(trades, ChargedAll(f.trades))
            && Profit(ChargedAll(f.trades)) == final - setup.initial - costs
  {
    var equity;
    final, trades, equity := RunBacktest(setup, bars);
    ghost var cs := Finish(setup, bars).trades;
    drawdown := MaxDrawdown(setup.initial, equity);
    streak := MaxLosingStreak(trades, cs);
    costs := ChargeCosts(trades, cs);
    CostsAreChargedOnce(setup, bars);
  }
}
