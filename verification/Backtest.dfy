/** The backtest's bar loop as a function of the candles: entry at the open after an approved signal, trailing
    stop, exits, daily state. The strategy is any function of its window; the risk engine any function of
    everything it has been asked so far. */
module Backtest {
  import opened Common

  datatype Kind = Buy | Sell

  /** A candle with whatever indicators were computed for it. */
  datatype Bar = Bar(time: int, day: int, open: real, high: real, low: real, close: real, indicators: seq<real>)

  datatype Signal = Signal(kind: Kind, stop: real, target: real, atr: real)

  datatype Verdict = Approved(quantity: Option<nat>) | Blocked(reason: string) | Skipped

  /** The simulated daily risk state. */
  datatype Sim = Sim(realised: real, halted: bool, haltReason: Option<string>, lastSignal: Option<int>,
                     approved: nat, blocked: nat, skipped: nat)

  /** What the risk engine is asked: a signal, the daily state, and the portfolio, which has no open trade. */
  datatype Query = Query(signal: Signal, sim: Sim, balance: real, peak: real)

  datatype Setup = Setup(
    minCandles: nat,
    initial: real,
    trailing: bool, trigger: real, distance: real,
    strategy: seq<Bar> -> Option<Signal>,
    risk: seq<Query> -> Verdict)

  /** An approved signal waiting for the next open: the bar and the query it comes from. */
  datatype Pending = Pending(signal: Signal, quantity: nat, bar: nat, ask: nat)

  datatype Trade = Trade(entryTime: int, kind: Kind, entry: real, stop: real, target: real, quantity: nat,
                         trailed: bool, entryBar: nat, ask: nat)

  datatype Reason = StopHit | TrailingStop | TargetHit | ForcedExit

  datatype Closed = Closed(trade: Trade, exitTime: int, exit: real, reason: Reason, pnl: real, exitBar: nat)

  datatype State = State(
    balance: real, peak: real, trades: seq<Closed>, equity: seq<real>,
    open: Option<Trade>, atr: real, pending: Option<Pending>,
    sim: Sim, day: Option<int>, asked: seq<Query>)

  function Start(s: Setup): State {
    State(s.initial, s.initial, [], [s.initial], None, 0.0, None, Sim(0.0, false, None, None, 0, 0, 0), None, [])
  }

  function Times(a: real, b: real): real { a * b }

  function Gross(kind: Kind, entry: real, exit: real, quantity: nat): real {
    Worth(quantity, if kind.Buy? then exit - entry else entry - exit)
  }

  function Window(bars: seq<Bar>, i: nat): seq<Bar>
    requires i < |bars|
  {
    bars[if i >= 200 then i - 200 else 0..i + 1]
  }

  // ---------------------------------------------------------------- one bar

  function Fill(st: State, bar: Bar, i: nat): State {
    if st.open.None? && st.pending.Some?
    then
      var p := st.pending.value;
      st.(open := Some(Trade(bar.time, p.signal.kind, bar.open, p.signal.stop, p.signal.target, p.quantity,
                         false, i, p.ask)),
          pending := None)
    else st
  }

  function NewDay(st: State, bar: Bar): State {
    if st.day != Some(bar.day)
    then st.(sim := st.sim.(realised := 0.0, halted := false, haltReason := None), day := Some(bar.day))
    else st
  }

  function Trail(s: Setup, t: Trade, atr: real, bar: Bar): Trade {
    if !s.trailing || atr <= 0.0 then t
    else match t.kind
      case Buy =>
        var stop := bar.high - Times(s.distance, atr);
        if bar.high - t.entry >= Times(s.trigger, atr) && stop > t.stop then t.(stop := stop, trailed := true) else t
      case Sell =>
        var stop := bar.low + Times(s.distance, atr);
        if t.entry - bar.low >= Times(s.trigger, atr) && stop < t.stop then t.(stop := stop, trailed := true) else t
  }

  /** The stop is checked before the target. */
  function Hit(t: Trade, bar: Bar): Option<Reason> {
    var stopped := if t.kind.Buy? then bar.low <= t.stop else bar.high >= t.stop;
    var reached := if t.kind.Buy? then bar.high >= t.target else bar.low <= t.target;
    if stopped then Some(if t.trailed then TrailingStop else StopHit)
    else if reached then Some(TargetHit) else None
  }

  function Close(t: Trade, time: int, exit: real, reason: Reason, i: nat): Closed {
    Closed(t, time, exit, reason, Gross(t.kind, t.entry, exit, t.quantity), i)
  }

  function Book(st: State, c: Closed): State {
    var balance := st.balance + c.pnl;
    st.(open := None, balance := balance, peak := Max(st.peak, balance), trades := st.trades + [c],
        sim := st.sim.(realised := st.sim.realised + c.pnl))
  }

  function Manage(s: Setup, st: State, bar: Bar, i: nat): State {
    if st.open.None? then st
    else
      var t := Trail(s, st.open.value, st.atr, bar);
      match Hit(t, bar)
      case None => st.(open := Some(t))
      case Some(reason) =>
        Book(st, Close(t, bar.time, if reason.TargetHit? then t.target else t.stop, reason, i))
  }

  function Counted(sim: Sim, v: Verdict, time: int): Sim {
    match v
    case Approved(_) => sim.(approved := sim.approved + 1, lastSignal := Some(time))
    case Blocked(reason) =>
      var halts := reason == "DAILY_LOSS_LIMIT_REACHED" || reason == "ACCOUNT_DRAWDOWN_HALT";
      sim.(blocked := sim.blocked + 1, halted := halts || sim.halted,
           haltReason := if halts then Some(reason) else sim.haltReason)
    case Skipped => sim.(skipped := sim.skipped + 1)
  }

  predicate Grants(v: Verdict) { v.Approved? && v.quantity.Some? && v.quantity.value != 0 }

  function Evaluate(s: Setup, st: State, bars: seq<Bar>, i: nat): State
    requires i < |bars|
  {
    if st.open.Some? || st.sim.halted then st
    else match s.strategy(Window(bars, i))
      case None => st
      case Some(g) =>
        var asked := st.asked + [Query(g, st.sim, st.balance, st.peak)];
        var v := s.risk(asked);
        st.(atr := g.atr, asked := asked, sim := Counted(st.sim, v, bars[i].time),
            pending := if Grants(v) then Some(Pending(g, v.quantity.value, i, |st.asked|)) else st.pending)
  }

  function OnBar(s: Setup, st: State, bars: seq<Bar>, i: nat): State
    requires i < |bars|
  {
    var u := Evaluate(s, Manage(s, NewDay(Fill(st, bars[i], i), bars[i]), bars[i], i), bars, i);
    u.(equity := u.equity + [u.balance])
  }

  /** The loop's state after the bars before n. */
  function After(s: Setup, bars: seq<Bar>, n: nat): State
    requires n <= |bars|
  {
    if n <= s.minCandles then Start(s) else OnBar(s, After(s, bars, n - 1), bars, n - 1)
  }

  /** A trade still open after the last bar is closed at its close. */
  function Finish(s: Setup, bars: seq<Bar>): State {
    var st := After(s, bars, |bars|);
    if st.open.None? || |bars| == 0 then st
    else
      var last := bars[|bars| - 1];
      var c := Close(st.open.value, last.time, last.close, ForcedExit, |bars| - 1);
      st.(open := None, balance := st.balance + c.pnl, trades := st.trades + [c])
  }

  // ---------------------------------------------------------------- no lookahead

  /** The state after bar n is determined by the candles up to n: a run on a prefix agrees with the full run
      until its forced exit. */
  lemma {:induction false} NoLookahead(s: Setup, bars: seq<Bar>, more: seq<Bar>, n: nat)
    requires n <= |bars|
    ensures After(s, bars + more, n) == After(s, bars, n)
  {
    if n > s.minCandles {
      NoLookahead(s, bars, more, n - 1);
      assert Window(bars + more, n - 1) == Window(bars, n - 1);
    }
  }

  // ---------------------------------------------------------------- structure of a run

  /** The trade entered on bar e comes from the signal the strategy gave on bar e - 1, which the risk engine
      approved with this quantity; it was filled at the open of bar e, and its stop only ever moved one way. */
  ghost predicate Entered(s: Setup, bars: seq<Bar>, asked: seq<Query>, t: Trade) {
    && s.minCandles < t.entryBar < |bars| && t.ask < |asked|
    && t.entryTime == bars[t.entryBar].time && t.entry == bars[t.entryBar].open
    && var g := asked[t.ask].signal;
       && s.strategy(Window(bars, t.entryBar - 1)) == Some(g)
       && s.risk(asked[..t.ask + 1]) == Approved(Some(t.quantity)) && t.quantity > 0
       && t.kind == g.kind && t.target == g.target
       && (if t.kind.Buy? then t.stop >= g.stop else t.stop <= g.stop)
       && (!t.trailed ==> t.stop == g.stop)
  }

  /** A stop that trailed locks in the entry price, when the trail is no wider than its trigger. */
  ghost predicate Protected(s: Setup, t: Trade) {
    t.trailed && s.distance <= s.trigger ==> if t.kind.Buy? then t.stop >= t.entry else t.stop <= t.entry
  }

  /** The bar touched the stop: from above for a BUY, from below for a SELL. */
  ghost predicate TouchesStop(t: Trade, bar: Bar) {
    if t.kind.Buy? then bar.low <= t.stop else bar.high >= t.stop
  }

  ghost predicate TouchesTarget(t: Trade, bar: Bar) {
    if t.kind.Buy? then bar.high >= t.target else bar.low <= t.target
  }

  /** The result is the quantity times the move from entry to exit, downwards for a SELL. */
  ghost predicate EarnsMove(kind: Kind, quantity: nat, entry: real, exit: real, pnl: real) {
    pnl == quantity as real * (if kind.Buy? then exit - entry else entry - exit)
  }

  lemma GrossEarnsMove(kind: Kind, quantity: nat, entry: real, exit: real)
    ensures EarnsMove(kind, quantity, entry, exit, Gross(kind, entry, exit, quantity))
  {
  }

  /** A trade ended by the loop went out at exactly its stop, which the bar touched, or at its target, which the bar
      touched without touching the stop. */
  ghost predicate Exited(bars: seq<Bar>, c: Closed) {
    && c.trade.entryBar <= c.exitBar < |bars| && c.exitTime == bars[c.exitBar].time
    && EarnsMove(c.trade.kind, c.trade.quantity, c.trade.entry, c.exit, c.pnl)
    && var bar := bars[c.exitBar];
       match c.reason
       case ForcedExit => c.exit == bar.close && c.exitBar == |bars| - 1
       case TargetHit => c.exit == c.trade.target && TouchesTarget(c.trade, bar) && !TouchesStop(c.trade, bar)
       case _ => c.exit == c.trade.stop && TouchesStop(c.trade, bar)
                 && (c.reason.TrailingStop? <==> c.trade.trailed)
  }

  ghost predicate Waiting(s: Setup, bars: seq<Bar>, st: State, n: nat) {
    st.pending.Some? ==>
      var p := st.pending.value;
      && st.open.None? && s.minCandles <= p.bar == n - 1 < |bars| && p.ask < |st.asked|
      && st.asked[p.ask].signal == p.signal && s.strategy(Window(bars, p.bar)) == Some(p.signal)
      && s.risk(st.asked[..p.ask + 1]) == Approved(Some(p.quantity)) && p.quantity > 0
      && st.atr == p.signal.atr
      && (forall k :: 0 <= k < |st.trades| ==> st.trades[k].exitBar <= p.bar)
  }

  ghost predicate Disjoint(st: State, n: nat) {
    && (forall j, k :: 0 <= j < k < |st.trades| ==> st.trades[j].exitBar < st.trades[k].trade.entryBar)
    && (forall k :: 0 <= k < |st.trades| ==> st.trades[k].exitBar < n)
    && (st.open.Some? ==> st.open.value.entryBar < n
                          && forall k :: 0 <= k < |st.trades| ==> st.trades[k].exitBar < st.open.value.entryBar)
  }

  ghost predicate Sound(s: Setup, bars: seq<Bar>, st: State) {
    && (forall k :: 0 <= k < |st.trades| ==>
          Entered(s, bars, st.asked, st.trades[k].trade) && Protected(s, st.trades[k].trade)
          && Exited(bars, st.trades[k]) && !st.trades[k].reason.ForcedExit?)
    && (st.open.Some? ==>
          && Entered(s, bars, st.asked, st.open.value) && Protected(s, st.open.value)
          && st.atr == st.asked[st.open.value.ask].signal.atr)
  }

  ghost predicate Inv(s: Setup, bars: seq<Bar>, st: State, n: nat) {
    Waiting(s, bars, st, n) && Disjoint(st, n) && Sound(s, bars, st)
  }

  ghost predicate Mid(s: Setup, bars: seq<Bar>, st: State, n: nat) {
    st.pending.None? && Disjoint(st, n) && Sound(s, bars, st)
  }

  lemma FillKeeps(s: Setup, bars: seq<Bar>, st: State, i: nat)
    requires i < |bars| && Inv(s, bars, st, i)
    ensures Mid(s, bars, Fill(st, bars[i], i), i + 1)
  {
  }

  lemma NewDayKeeps(s: Setup, bars: seq<Bar>, st: State, bar: Bar, n: nat)
    requires Mid(s, bars, st, n)
    ensures Mid(s, bars, NewDay(st, bar), n)
  {
  }

  lemma TrailTightens(s: Setup, t: Trade, atr: real, bar: Bar)
    ensures var u := Trail(s, t, atr, bar);
            && u == t.(stop := u.stop, trailed := u.trailed) && (t.trailed ==> u.trailed)
            && (if t.kind.Buy? then u.stop >= t.stop else u.stop <= t.stop) && (!u.trailed ==> u == t)
            && (Protected(s, t) ==> Protected(s, u))
  {
    if atr > 0.0 && s.distance <= s.trigger {
      assert Times(s.trigger - s.distance, atr) >= 0.0;
      assert Times(s.trigger - s.distance, atr) == Times(s.trigger, atr) - Times(s.distance, atr);
    }
  }

  lemma HoldingKeeps(s: Setup, bars: seq<Bar>, st: State, t: Trade, n: nat)
    requires Mid(s, bars, st, n) && st.open.Some? && t.entryBar == st.open.value.entryBar && t.ask == st.open.value.ask
    requires Entered(s, bars, st.asked, t) && Protected(s, t)
    ensures Mid(s, bars, st.(open := Some(t)), n)
  {
  }

  lemma BookKeeps(s: Setup, bars: seq<Bar>, st: State, c: Closed, n: nat)
    requires Mid(s, bars, st, n) && st.open == Some(c.trade) && c.exitBar == n - 1
    requires Exited(bars, c) && !c.reason.ForcedExit?
    ensures Mid(s, bars, Book(st, c), n)
  {
  }

  /** What the bar touched is where the trade goes out. */
  lemma HitExits(bars: seq<Bar>, t: Trade, i: nat)
    requires t.entryBar <= i < |bars| && Hit(t, bars[i]).Some?
    ensures var reason := Hit(t, bars[i]).value;
            var exit := if reason.TargetHit? then t.target else t.stop;
            Exited(bars, Close(t, bars[i].time, exit, reason, i)) && !reason.ForcedExit?
  {
    var exit := if Hit(t, bars[i]).value.TargetHit? then t.target else t.stop;
    GrossEarnsMove(t.kind, t.quantity, t.entry, exit);
  }

  lemma ManageKeeps(s: Setup, bars: seq<Bar>, st: State, i: nat)
    requires i < |bars| && Mid(s, bars, st, i + 1)
    ensures Mid(s, bars, Manage(s, st, bars[i], i), i + 1)
  {
    if st.open.Some? {
      TrailTightens(s, st.open.value, st.atr, bars[i]);
      var t := Trail(s, st.open.value, st.atr, bars[i]);
      HoldingKeeps(s, bars, st, t, i + 1);
      var hit := Hit(t, bars[i]);
      if hit.Some? {
        HitExits(bars, t, i);
        var c := Close(t, bars[i].time, if hit.value.TargetHit? then t.target else t.stop, hit.value, i);
        BookKeeps(s, bars, st.(open := Some(t)), c, i + 1);
        assert Book(st.(open := Some(t)), c) == Book(st, c);
      }
    }
  }

  lemma AskingKeeps(s: Setup, bars: seq<Bar>, asked: seq<Query>, q: Query, t: Trade)
    requires Entered(s, bars, asked, t)
    ensures Entered(s, bars, asked + [q], t) && (asked + [q])[t.ask] == asked[t.ask]
  {
    assert (asked + [q])[..t.ask + 1] == asked[..t.ask + 1];
  }

  lemma EvaluateKeeps(s: Setup, bars: seq<Bar>, st: State, i: nat)
    requires s.minCandles <= i < |bars| && Mid(s, bars, st, i + 1)
    ensures Inv(s, bars, Evaluate(s, st, bars, i), i + 1)
  {
    var u := Evaluate(s, st, bars, i);
    if u.asked != st.asked {
      var q := u.asked[|st.asked|];
      assert u.asked == st.asked + [q] && u.asked[..|st.asked| + 1] == u.asked;
      forall k | 0 <= k < |st.trades| ensures Entered(s, bars, u.asked, st.trades[k].trade) {
        AskingKeeps(s, bars, st.asked, q, st.trades[k].trade);
      }
    }
  }

  lemma BarKeeps(s: Setup, bars: seq<Bar>, st: State, i: nat) returns (r: State)
    requires s.minCandles <= i < |bars| && Inv(s, bars, st, i)
    ensures r == OnBar(s, st, bars, i) && Inv(s, bars, r, i + 1)
  {
    FillKeeps(s, bars, st, i);
    NewDayKeeps(s, bars, Fill(st, bars[i], i), bars[i], i + 1);
    var u := NewDay(Fill(st, bars[i], i), bars[i]);
    ManageKeeps(s, bars, u, i);
    var v := Manage(s, u, bars[i], i);
    EvaluateKeeps(s, bars, v, i);
    var w := Evaluate(s, v, bars, i);
    EquityIsAside(s, bars, w, i + 1);
    r := w.(equity := w.equity + [w.balance]);
  }

  lemma EquityIsAside(s: Setup, bars: seq<Bar>, st: State, n: nat)
    requires Inv(s, bars, st, n)
    ensures Inv(s, bars, st.(equity := st.equity + [st.balance]), n)
  {
  }

  lemma StartHolds(s: Setup, bars: seq<Bar>, n: nat)
    ensures Inv(s, bars, Start(s), n)
  {
  }

  lemma {:induction false} RunInv(s: Setup, bars: seq<Bar>, n: nat) returns (st: State)
    requires n <= |bars|
    ensures st == After(s, bars, n) && Inv(s, bars, st, n)
  {
    if n <= s.minCandles {
      st := Start(s);
      StartHolds(s, bars, n);
    } else {
      var before := RunInv(s, bars, n - 1);
      st := BarKeeps(s, bars, before, n - 1);
    }
  }

  // ---------------------------------------------------------------- results

  /** After every bar there is an open trade, or a signal waiting for the next open, or neither. */
  lemma {:induction false} NeverBoth(s: Setup, bars: seq<Bar>, n: nat)
    requires n <= |bars|
    ensures var st := After(s, bars, n); !(st.open.Some? && st.pending.Some?)
  {
    var _ := RunInv(s, bars, n);
  }

  /** Every trade of a run was entered at the open after a signal approved with its quantity, and left at its
      stop, its target, or the last close. */
  lemma TradesComeFromSignals(s: Setup, bars: seq<Bar>, k: nat)
    requires k < |Finish(s, bars).trades|
    ensures var st := Finish(s, bars);
            Entered(s, bars, st.asked, st.trades[k].trade) && Exited(bars, st.trades[k])
  {
    var st := RunInv(s, bars, |bars|);
    if st.open.Some? {
      var t := st.open.value;
      GrossEarnsMove(t.kind, t.quantity, t.entry, bars[|bars| - 1].close);
    }
  }

  /** Trades follow one another strictly: one is over on a bar before the next is entered, and so, for candles
      in strictly increasing time, at an earlier time. */
  lemma TradesAreDisjoint(s: Setup, bars: seq<Bar>, j: nat, k: nat)
    requires j < k < |Finish(s, bars).trades|
    ensures var ts := Finish(s, bars).trades;
            && ts[j].trade.entryBar <= ts[j].exitBar < ts[k].trade.entryBar <= ts[k].exitBar < |bars|
            && ((forall a, b :: 0 <= a < b < |bars| ==> bars[a].time < bars[b].time) ==>
                  ts[j].exitTime < ts[k].trade.entryTime)
  {
    var _ := RunInv(s, bars, |bars|);
    TradesComeFromSignals(s, bars, j);
    TradesComeFromSignals(s, bars, k);
  }

  lemma EntryIsPast(s: Setup, bars: seq<Bar>, n: nat)
    requires n <= |bars| && After(s, bars, n).open.Some?
    ensures After(s, bars, n).open.value.entryBar < n
  {
    var _ := RunInv(s, bars, n);
  }

  /** The same trade, with a stop no looser. */
  predicate Tightened(t: Trade, u: Trade) {
    && u == t.(stop := u.stop, trailed := u.trailed)
    && if t.kind.Buy? then u.stop >= t.stop else u.stop <= t.stop
  }

  lemma TighteningAdds(t: Trade, u: Trade, v: Trade)
    requires Tightened(t, u) && Tightened(u, v)
    ensures Tightened(t, v)
  {
  }

  /** A trade open after a bar was entered on it, or was open before with a stop no tighter. */
  lemma OpenAcrossBar(s: Setup, st: State, bars: seq<Bar>, i: nat)
    requires i < |bars| && OnBar(s, st, bars, i).open.Some?
    ensures var u := OnBar(s, st, bars, i).open.value;
            if st.open.None? then u.entryBar == i else Tightened(st.open.value, u)
  {
    var u := NewDay(Fill(st, bars[i], i), bars[i]);
    if u.open.Some? { TrailTightens(s, u.open.value, u.atr, bars[i]); }
  }

  /** A trade open in both states has a stop no looser in the second. */
  predicate StaysTight(t: State, u: State) {
    t.open.Some? && u.open.Some? && t.open.value.entryBar == u.open.value.entryBar ==>
      Tightened(t.open.value, u.open.value)
  }

  lemma BarTightens(s: Setup, t: State, v: State, bars: seq<Bar>, i: nat) returns (u: State)
    requires i < |bars| && StaysTight(t, v) && (t.open.Some? ==> t.open.value.entryBar < i)
    ensures u == OnBar(s, v, bars, i) && StaysTight(t, u)
  {
    u := OnBar(s, v, bars, i);
    if u.open.Some? {
      OpenAcrossBar(s, v, bars, i);
      if t.open.Some? && v.open.Some? && t.open.value.entryBar == u.open.value.entryBar {
        TighteningAdds(t.open.value, v.open.value, u.open.value);
      }
    }
  }

  lemma {:induction false} StopsStayTight(s: Setup, bars: seq<Bar>, n: nat, m: nat) returns (t: State, u: State)
    requires n <= m <= |bars|
    ensures t == After(s, bars, n) && u == After(s, bars, m) && StaysTight(t, u)
    decreases m
  {
    if n == m {
      t := After(s, bars, n);
      u := t;
    } else {
      var v;
      t, v := StopsStayTight(s, bars, n, m - 1);
      if m <= s.minCandles {
        u := Start(s);
      } else {
        if t.open.Some? { EntryIsPast(s, bars, n); }
        u := BarTightens(s, t, v, bars, m - 1);
      }
    }
  }

  /** While a trade stays open its stop never moves away: a BUY stop never falls, a SELL stop never rises. */
  lemma {:induction false} StopsNeverLoosen(s: Setup, bars: seq<Bar>, n: nat, m: nat)
    requires n <= m <= |bars|
    requires After(s, bars, n).open.Some? && After(s, bars, m).open.Some?
    requires After(s, bars, n).open.value.entryBar == After(s, bars, m).open.value.entryBar
    ensures Tightened(After(s, bars, n).open.value, After(s, bars, m).open.value)
  {
    var _, _ := StopsStayTight(s, bars, n, m);
  }

  /** With a trail no wider than its trigger, no trade that leaves on its trailed stop loses, before costs. */
  lemma TrailingNeverLoses(s: Setup, bars: seq<Bar>, k: nat)
    requires s.distance <= s.trigger
    requires k < |Finish(s, bars).trades| && Finish(s, bars).trades[k].reason.TrailingStop?
    ensures Finish(s, bars).trades[k].pnl >= 0.0
  {
    var _ := RunInv(s, bars, |bars|);
    var c := Finish(s, bars).trades[k];
    assert Protected(s, c.trade) && Exited(bars, c);
    GainsAreGains(c.trade.kind, c.trade.entry, c.exit, c.trade.quantity, c.pnl);
  }

  lemma WorthIsSigned(quantity: nat, gain: real)
    requires gain >= 0.0
    ensures Worth(quantity, gain) >= 0.0
  {
  }

  lemma GainsAreGains(kind: Kind, entry: real, exit: real, quantity: nat, pnl: real)
    requires EarnsMove(kind, quantity, entry, exit, pnl)
    requires if kind.Buy? then exit >= entry else exit <= entry
    ensures pnl >= 0.0
  {
    WorthIsSigned(quantity, if kind.Buy? then exit - entry else entry - exit);
  }

  // ---------------------------------------------------------------- the ledger

  function Profit(ts: seq<Closed>): real {
    if ts == [] then 0.0 else Profit(ts[..|ts| - 1]) + ts[|ts| - 1].pnl
  }

  lemma ProfitSnoc(ts: seq<Closed>, c: Closed)
    ensures Profit(ts + [c]) == Profit(ts) + c.pnl
  {
    assert (ts + [c])[..|ts|] == ts;
  }

  predicate Sums(initial: real, balance: real, profit: real) { balance == initial + profit }

  ghost predicate Ledger(s: Setup, st: State) {
    Sums(s.initial, st.balance, Profit(st.trades)) && st.balance <= st.peak
  }

  lemma GainSums(initial: real, balance: real, profit: real, pnl: real)
    requires Sums(initial, balance, profit)
    ensures Sums(initial, balance + pnl, profit + pnl)
  {
  }

  lemma BookedSums(s: Setup, st: State, c: Closed)
    requires Ledger(s, st)
    ensures Sums(s.initial, Book(st, c).balance, Profit(Book(st, c).trades))
  {
    ProfitSnoc(st.trades, c);
    GainSums(s.initial, st.balance, Profit(st.trades), c.pnl);
  }

  lemma BookedPeaks(st: State, c: Closed)
    ensures Book(st, c).balance <= Book(st, c).peak
  {
  }

  lemma BookBalances(s: Setup, st: State, c: Closed)
    requires Ledger(s, st)
    ensures Ledger(s, Book(st, c))
  {
    BookedSums(s, st, c);
    BookedPeaks(st, c);
  }

  lemma ManageBalances(s: Setup, st: State, bar: Bar, i: nat)
    requires Ledger(s, st)
    ensures Ledger(s, Manage(s, st, bar, i))
  {
    if st.open.Some? {
      var t := Trail(s, st.open.value, st.atr, bar);
      var hit := Hit(t, bar);
      if hit.Some? {
        BookBalances(s, st, Close(t, bar.time, if hit.value.TargetHit? then t.target else t.stop, hit.value, i));
      }
    }
  }

  lemma EvaluateBalances(s: Setup, st: State, bars: seq<Bar>, i: nat)
    requires i < |bars| && Ledger(s, st)
    ensures Ledger(s, Evaluate(s, st, bars, i))
  {
  }

  lemma BarBalances(s: Setup, st: State, bars: seq<Bar>, i: nat) returns (r: State)
    requires i < |bars| && Ledger(s, st)
    ensures r == OnBar(s, st, bars, i) && Ledger(s, r)
  {
    var u := NewDay(Fill(st, bars[i], i), bars[i]);
    assert Ledger(s, u);
    ManageBalances(s, u, bars[i], i);
    var v := Manage(s, u, bars[i], i);
    EvaluateBalances(s, v, bars, i);
    var w := Evaluate(s, v, bars, i);
    r := w.(equity := w.equity + [w.balance]);
  }

  lemma EquityGrows(s: Setup, st: State, bars: seq<Bar>, i: nat) returns (r: State)
    requires i < |bars|
    ensures r == OnBar(s, st, bars, i) && r.equity == st.equity + [r.balance]
  {
    r := OnBar(s, st, bars, i);
  }

  lemma {:induction false} LedgerAfter(s: Setup, bars: seq<Bar>, n: nat) returns (st: State)
    requires n <= |bars|
    ensures st == After(s, bars, n) && Ledger(s, st)
  {
    if n <= s.minCandles {
      st := Start(s);
    } else {
      var before := LedgerAfter(s, bars, n - 1);
      st := BarBalances(s, before, bars, n - 1);
    }
  }

  /** The final balance is the initial one plus the gross profit of every trade, the forced exit included. */
  lemma LedgerBalances(s: Setup, bars: seq<Bar>)
    ensures Finish(s, bars).balance == s.initial + Profit(Finish(s, bars).trades)
  {
    var st := LedgerAfter(s, bars, |bars|);
    if st.open.Some? && |bars| > 0 {
      ProfitSnoc(st.trades, Finish(s, bars).trades[|st.trades|]);
    }
  }

  lemma {:induction false} LastPointIsBalance(s: Setup, bars: seq<Bar>, n: nat) returns (r: State)
    requires s.minCandles <= n <= |bars|
    ensures r == After(s, bars, n)
    ensures |r.equity| == 1 + n - s.minCandles && r.equity[n - s.minCandles] == r.balance
    decreases n
  {
    if n == s.minCandles {
      r := Start(s);
    } else {
      var before := LastPointIsBalance(s, bars, n - 1);
      r := EquityGrows(s, before, bars, n - 1);
    }
  }

  /** The equity curve has one point for the start and one a bar: the balance after that bar, open trades not
      counted. */
  lemma {:induction false} EquityIsBalance(s: Setup, bars: seq<Bar>, n: nat, m: nat) returns (r: State)
    requires s.minCandles <= n <= m <= |bars|
    ensures r == After(s, bars, m)
    ensures |r.equity| == 1 + m - s.minCandles && r.equity[n - s.minCandles] == After(s, bars, n).balance
    decreases m
  {
    if n == m {
      r := LastPointIsBalance(s, bars, n);
    } else {
      var before := EquityIsBalance(s, bars, n, m - 1);
      r := EquityGrows(s, before, bars, m - 1);
    }
  }
}
