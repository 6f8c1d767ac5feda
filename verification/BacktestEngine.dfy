/** The backtest engine over mutable trades: the bar loop with its local variables, proved against the loop as
    a function of the candles. */
module BacktestEngine {
  import opened Common
  import opened Backtest

  class BacktestTrade {
    const entryTime: int
    const kind: Kind
    const entry: real
    const target: real
    const quantity: nat
    var stop: real
    var trailingActivated: bool
    var exitTime: Option<int>
    var exit: real
    var reason: Option<Reason>
    var pnl: real

    constructor (entryTime: int, kind: Kind, entry: real, stop: real, target: real, quantity: nat)
      ensures this.entryTime == entryTime && this.kind == kind && this.entry == entry && this.stop == stop
      ensures this.target == target && this.quantity == quantity && !trailingActivated && exitTime.None?
    {
      this.entryTime, this.kind, this.entry, this.stop, this.target, this.quantity :=
        entryTime, kind, entry, stop, target, quantity;
      trailingActivated, exitTime, exit, reason, pnl := false, None, 0.0, None, 0.0;
    }

    /** This object is trade t, still open. */
    ghost predicate IsOpen(t: Trade)
      reads this
    {
      && entryTime == t.entryTime && kind == t.kind && entry == t.entry && target == t.target && quantity == t.quantity
      && stop == t.stop && trailingActivated == t.trailed
    }

    /** This object is trade c, closed. */
    ghost predicate IsClosed(c: Closed)
      reads this
    {
      IsOpen(c.trade) && exitTime == Some(c.exitTime) && exit == c.exit && reason == Some(c.reason) && pnl == c.pnl
    }

    method TrailStop(setup: Setup, atr: real, bar: Bar, ghost t: Trade)
      requires IsOpen(t)
      modifies this
      ensures IsOpen(Trail(setup, t, atr, bar))
    {
      if setup.trailing && atr > 0.0 {
        if kind.Buy? {
          var profitDistance := bar.high - entry;
          if profitDistance >= Times(setup.trigger, atr) {
            var newStop := bar.high - Times(setup.distance, atr);
            if newStop > stop {
              stop, trailingActivated := newStop, true;
            }
          }
        } else {
          var profitDistance := entry - bar.low;
          if profitDistance >= Times(setup.trigger, atr) {
            var newStop := bar.low + Times(setup.distance, atr);
            if newStop < stop {
              stop, trailingActivated := newStop, true;
            }
          }
        }
      }
    }

    method CheckExit(bar: Bar, ghost t: Trade) returns (closed: bool)
      requires IsOpen(t)
      modifies this`exit, this`reason
      ensures IsOpen(t) && closed == Hit(t, bar).Some?
      ensures closed ==> reason == Hit(t, bar) && exit == if reason == Some(TargetHit) then target else stop
    {
      closed := true;
      if kind.Buy? {
        if bar.low <= stop {
          exit, reason := stop, Some(if trailingActivated then TrailingStop else StopHit);
        } else if bar.high >= target {
          exit, reason := target, Some(TargetHit);
        } else {
          closed := false;
        }
      } else {
        if bar.high >= stop {
          exit, reason := stop, Some(if trailingActivated then TrailingStop else StopHit);
        } else if bar.low <= target {
          exit, reason := target, Some(TargetHit);
        } else {
          closed := false;
        }
      }
    }

    /** Book the gross profit of the exit that was set. */
    method Book(time: int, ghost t: Trade, ghost i: nat)
      requires IsOpen(t) && reason.Some?
      modifies this`exitTime, this`pnl
      ensures IsClosed(Close(t, time, exit, reason.value, i))
    {
      exitTime := Some(time);
      if kind.Buy? {
        pnl := Worth(quantity, exit - entry);
      } else {
        pnl := Worth(quantity, entry - exit);
      }
    }

    /** Trail, then check for an exit on this bar, then book it. */
    method OnBar(setup: Setup, atr: real, bar: Bar, ghost t: Trade, ghost i: nat) returns (closed: bool)
      requires IsOpen(t)
      modifies this
      ensures var u := Trail(setup, t, atr, bar);
              && closed == Hit(u, bar).Some?
              && (!closed ==> IsOpen(u))
              && (closed ==> var r := Hit(u, bar).value;
                             IsClosed(Close(u, bar.time, if r.TargetHit? then u.target else u.stop, r, i)))
    {
      TrailStop(setup, atr, bar, t);
      ghost var u := Trail(setup, t, atr, bar);
      closed := CheckExit(bar, u);
      if closed {
        Book(bar.time, u, i);
      }
    }
  }

  /** The objects are the closed trades, in order, each its own. */
  ghost predicate Shows(objects: seq<BacktestTrade>, trades: seq<Closed>)
    reads objects
  {
    && |objects| == |trades|
    && (forall k :: 0 <= k < |objects| ==> objects[k].IsClosed(trades[k]))
    && (forall j, k :: 0 <= j < k < |objects| ==> objects[j] != objects[k])
  }

  ghost predicate ShowsOpen(o: BacktestTrade?, open: Option<Trade>)
    reads o
  {
    if o == null then open.None? else open.Some? && o.IsOpen(open.value)
  }

  /** The local variables of a run. */
  class Run {
    const setup: Setup
    var balance: real
    var peak: real
    var trades: seq<BacktestTrade>
    var equity: seq<real>
    var openTrade: BacktestTrade?
    var atr: real
    var pending: Option<Pending>
    var sim: Sim
    var day: Option<int>
    var asked: seq<Query>

    ghost predicate IsAt(st: State)
      reads this, openTrade, trades
    {
      && balance == st.balance && peak == st.peak && equity == st.equity && atr == st.atr && pending == st.pending
      && sim == st.sim && day == st.day && asked == st.asked
      && ShowsOpen(openTrade, st.open) && Shows(trades, st.trades) && (openTrade == null || openTrade !in trades)
    }

    constructor (setup: Setup)
      ensures this.setup == setup && IsAt(Start(setup)) && openTrade == null && trades == []
    {
      this.setup, balance, peak, trades, equity := setup, setup.initial, setup.initial, [], [setup.initial];
      openTrade, atr, pending, day, asked := null, 0.0, None, None, [];
      sim := Sim(0.0, false, None, None, 0, 0, 0);
    }

    /** A signal approved on the last bar is filled at this bar's open. */
    method FillPending(bar: Bar, ghost st: State, ghost i: nat)
      requires IsAt(st)
      modifies this`openTrade, this`pending
      ensures IsAt(Fill(st, bar, i))
      ensures openTrade == old(openTrade) || (old(openTrade) == null && fresh(openTrade))
    {
      if openTrade == null && pending.Some? {
        var p := pending.value;
        openTrade := new BacktestTrade(bar.time, p.signal.kind, bar.open, p.signal.stop, p.signal.target, p.quantity);
        pending := None;
      }
    }

    method ResetDay(bar: Bar, ghost st: State)
      requires IsAt(st)
      modifies this`sim, this`day
      ensures IsAt(NewDay(st, bar))
    {
      if day != Some(bar.day) {
        sim := sim.(realised := 0.0, halted := false, haltReason := None);
        day := Some(bar.day);
      }
    }

    method ManageOpen(bar: Bar, ghost st: State, ghost i: nat)
      requires IsAt(st)
      modifies this, openTrade
      ensures IsAt(Manage(setup, st, bar, i))
      ensures openTrade == old(openTrade) || openTrade == null
      ensures forall k :: 0 <= k < |trades| ==> trades[k] in old(trades) || trades[k] == old(openTrade)
    {
      if openTrade != null {
        var closed := openTrade.OnBar(setup, atr, bar, st.open.value, i);
        if closed {
          balance := balance + openTrade.pnl;
          peak := Max(peak, balance);
          sim := sim.(realised := sim.realised + openTrade.pnl);
          trades := trades + [openTrade];
          openTrade := null;
        }
      }
    }

    /** Ask the strategy and the risk engine, unless a trade is open or the day is halted. */
    method Consult(bars: seq<Bar>, i: nat, ghost st: State)
      requires i < |bars| && IsAt(st)
      modifies this`atr, this`sim, this`asked, this`pending
      ensures IsAt(Evaluate(setup, st, bars, i))
    {
      if openTrade == null && !sim.halted {
        var signal := setup.strategy(Window(bars, i));
        if signal.Some? {
          atr := signal.value.atr;
          asked := asked + [Query(signal.value, sim, balance, peak)];
          var verdict := setup.risk(asked);
          match verdict {
            case Approved(_) =>
              sim := sim.(approved := sim.approved + 1, lastSignal := Some(bars[i].time));
            case Blocked(reason) =>
              sim := sim.(blocked := sim.blocked + 1);
              if reason == "DAILY_LOSS_LIMIT_REACHED" || reason == "ACCOUNT_DRAWDOWN_HALT" {
                sim := sim.(halted := true, haltReason := Some(reason));
              }
            case Skipped =>
              sim := sim.(skipped := sim.skipped + 1);
          }
          if verdict.Approved? && verdict.quantity.Some? && verdict.quantity.value != 0 {
            pending := Some(Pending(signal.value, verdict.quantity.value, i, |asked| - 1));
          }
        }
      }
    }

    method Step(bars: seq<Bar>, i: nat, ghost st: State)
      requires i < |bars| && IsAt(st)
      modifies this, openTrade
      ensures IsAt(Backtest.OnBar(setup, st, bars, i))
      ensures openTrade == old(openTrade) || openTrade == null || fresh(openTrade)
      ensures forall k :: 0 <= k < |trades| ==>
                trades[k] in old(trades) || trades[k] == old(openTrade) || fresh(trades[k])
    {
      var bar := bars[i];
      FillPending(bar, st, i);
      ghost var s1 := Fill(st, bar, i);
      ResetDay(bar, s1);
      ghost var s2 := NewDay(s1, bar);
      ManageOpen(bar, s2, i);
      ghost var s3 := Manage(setup, s2, bar, i);
      Consult(bars, i, s3);
      equity := equity + [balance];
    }

    method RunBars(bars: seq<Bar>)
      requires IsAt(Start(setup)) && openTrade == null && trades == []
      modifies this
      ensures IsAt(After(setup, bars, |bars|)) && fresh(trades) && (openTrade != null ==> fresh(openTrade))
    {
      var i := if setup.minCandles <= |bars| then setup.minCandles else |bars|;
      ghost var st := After(setup, bars, i);
      while i < |bars|
        invariant i <= |bars| && (i < |bars| ==> setup.minCandles <= i)
        invariant st == After(setup, bars, i) && IsAt(st)
        invariant fresh(trades) && (openTrade != null ==> fresh(openTrade))
      {
        Step(bars, i, st);
        st := Backtest.OnBar(setup, st, bars, i);
        i := i + 1;
      }
    }

    /** A trade still open is closed at the last close. */
    method ForceExit(bars: seq<Bar>)
      requires |bars| > 0 && IsAt(After(setup, bars, |bars|))
      modifies this, openTrade
      ensures balance == Finish(setup, bars).balance && equity == Finish(setup, bars).equity
      ensures Shows(trades, Finish(setup, bars).trades)
      ensures forall k :: 0 <= k < |trades| ==> trades[k] in old(trades) || trades[k] == old(openTrade)
    {
      ghost var st := After(setup, bars, |bars|);
      if openTrade != null {
        var last := bars[|bars| - 1];
        openTrade.exit, openTrade.reason := last.close, Some(ForcedExit);
        openTrade.Book(last.time, st.open.value, |bars| - 1);
        balance := balance + openTrade.pnl;
        trades := trades + [openTrade];
        openTrade := null;
      }
    }
  }

  /** The whole backtest: the bar loop and the forced exit. */
  method RunBacktest(setup: Setup, bars: seq<Bar>)
    returns (balance: real, trades: seq<BacktestTrade>, equity: seq<real>)
    ensures balance == Finish(setup, bars).balance && equity == Finish(setup, bars).equity
    ensures Shows(trades, Finish(setup, bars).trades)
    ensures fresh(trades)
  {
    var run := new Run(setup);
    run.RunBars(bars);
    if |bars| > 0 {
      run.ForceExit(bars);
    }
    return run.balance, run.trades, run.equity;
  }
}
