/** What a backtest's bars do to an open trade and to the daily state, told in terms of the candles: where the
    stop stands, when a trade leaves, when the strategy is heard, what the day has realised. */
module BacktestResults {
  import opened Common
  import opened Backtest

  /** The strategy sees the last 201 candles up to its bar, or all of them. */
  lemma WindowIsLast201(bars: seq<Bar>, i: nat)
    requires i < |bars|
    ensures var w := Window(bars, i);
            && |w| == (if i < 200 then i + 1 else 201)
            && forall k :: 0 <= k < |w| ==> w[k] == bars[i + 1 - |w| + k]
  {
  }

  // ---------------------------------------------------------------- where the stop stands

  /** The bar carried the trade far enough from its entry for the stop to trail. */
  ghost predicate Reaches(s: Setup, g: Signal, t: Trade, bar: Bar) {
    && s.trailing && g.atr > 0.0
    && (if t.kind.Buy? then bar.high - t.entry else t.entry - bar.low) >= s.trigger * g.atr
  }

  /** The trailing distance away from the bar's best price. */
  ghost function Trailed(s: Setup, g: Signal, t: Trade, bar: Bar): real {
    if t.kind.Buy? then bar.high - s.distance * g.atr else bar.low + s.distance * g.atr
  }

  ghost predicate NoLooser(kind: Kind, stop: real, other: real) {
    if kind.Buy? then stop >= other else stop <= other
  }

  /** The stop is the tightest of the signal's and of those trailed by the bars from the entry up to bar n. */
  ghost predicate IsTightest(s: Setup, bars: seq<Bar>, g: Signal, t: Trade, n: nat) {
    && n <= |bars| && NoLooser(t.kind, t.stop, g.stop)
    && (forall j :: t.entryBar <= j < n && Reaches(s, g, t, bars[j]) ==>
          NoLooser(t.kind, t.stop, Trailed(s, g, t, bars[j])))
    && (if t.trailed
        then t.stop != g.stop && exists j :: t.entryBar <= j < n && Reaches(s, g, t, bars[j])
                                             && t.stop == Trailed(s, g, t, bars[j])
        else t.stop == g.stop)
  }

  /** What one bar makes of the stop. */
  lemma TrailsTo(s: Setup, g: Signal, t: Trade, bar: Bar)
    ensures var u := Trail(s, t, g.atr, bar);
            && u == t.(stop := u.stop, trailed := u.trailed)
            && if Reaches(s, g, t, bar) && !NoLooser(t.kind, t.stop, Trailed(s, g, t, bar))
               then u.trailed && u.stop == Trailed(s, g, t, bar) else u == t
  {
  }

  lemma {:induction false} StaysTightest(s: Setup, bars: seq<Bar>, g: Signal, t: Trade, i: nat)
    requires t.entryBar <= i < |bars| && IsTightest(s, bars, g, t, i)
    ensures IsTightest(s, bars, g, Trail(s, t, g.atr, bars[i]), i + 1)
  {
    TrailsTo(s, g, t, bars[i]);
    var u := Trail(s, t, g.atr, bars[i]);
    forall j | t.entryBar <= j < i + 1 && Reaches(s, g, u, bars[j])
      ensures NoLooser(u.kind, u.stop, Trailed(s, g, u, bars[j]))
    {
      if j < i { assert Reaches(s, g, t, bars[j]); }
    }
    if u.trailed && u == t {
      var j :| t.entryBar <= j < i && Reaches(s, g, t, bars[j]) && t.stop == Trailed(s, g, t, bars[j]);
      assert Reaches(s, g, u, bars[j]) && u.stop == Trailed(s, g, u, bars[j]);
    } else if u.trailed {
      assert Reaches(s, g, u, bars[i]) && u.stop == Trailed(s, g, u, bars[i]);
    }
  }

  /** A trade of a run, with the stop it has after bar n - 1. */
  ghost predicate StopFits(s: Setup, bars: seq<Bar>, asked: seq<Query>, t: Trade, n: nat) {
    t.ask < |asked| && IsTightest(s, bars, asked[t.ask].signal, t, n)
  }

  ghost predicate StopsFit(s: Setup, bars: seq<Bar>, st: State, n: nat) {
    && (st.open.Some? ==> StopFits(s, bars, st.asked, st.open.value, n))
    && forall k :: 0 <= k < |st.trades| ==>
         StopFits(s, bars, st.asked, st.trades[k].trade, st.trades[k].exitBar + 1)
  }

  lemma FillFits(s: Setup, bars: seq<Bar>, st: State, i: nat)
    requires i < |bars| && Inv(s, bars, st, i) && StopsFit(s, bars, st, i)
    ensures StopsFit(s, bars, NewDay(Fill(st, bars[i], i), bars[i]), i)
  {
  }

  lemma ManageFits(s: Setup, bars: seq<Bar>, st: State, i: nat)
    requires i < |bars| && Mid(s, bars, st, i + 1) && StopsFit(s, bars, st, i)
    ensures StopsFit(s, bars, Manage(s, st, bars[i], i), i + 1)
  {
    if st.open.Some? {
      var t := st.open.value;
      assert Entered(s, bars, st.asked, t);
      StaysTightest(s, bars, st.asked[t.ask].signal, t, i);
      assert StopFits(s, bars, st.asked, Trail(s, t, st.atr, bars[i]), i + 1);
    }
  }

  lemma EvaluateFits(s: Setup, bars: seq<Bar>, st: State, i: nat)
    requires i < |bars| && StopsFit(s, bars, st, i + 1)
    ensures StopsFit(s, bars, Evaluate(s, st, bars, i), i + 1)
  {
    var u := Evaluate(s, st, bars, i);
    assert st.asked <= u.asked;
    forall k | 0 <= k < |u.trades| ensures StopFits(s, bars, u.asked, u.trades[k].trade, u.trades[k].exitBar + 1) {
      assert StopFits(s, bars, st.asked, st.trades[k].trade, st.trades[k].exitBar + 1);
    }
  }

  lemma BarFits(s: Setup, bars: seq<Bar>, st: State, i: nat) returns (r: State)
    requires i < |bars| && Inv(s, bars, st, i) && StopsFit(s, bars, st, i)
    ensures r == OnBar(s, st, bars, i) && StopsFit(s, bars, r, i + 1)
  {
    var u := NewDay(Fill(st, bars[i], i), bars[i]);
    FillFits(s, bars, st, i);
    FillKeeps(s, bars, st, i);
    NewDayKeeps(s, bars, Fill(st, bars[i], i), bars[i], i + 1);
    ManageFits(s, bars, u, i);
    var v := Manage(s, u, bars[i], i);
    EvaluateFits(s, bars, v, i);
    var w := Evaluate(s, v, bars, i);
    r := w.(equity := w.equity + [w.balance]);
  }

  /** The invariants of a run before bar n, with what its stops rest on. */
  ghost predicate Fits(s: Setup, bars: seq<Bar>, st: State, n: nat) {
    Inv(s, bars, st, n) && StopsFit(s, bars, st, n)
  }

  lemma StartFits(s: Setup, bars: seq<Bar>, n: nat)
    ensures Fits(s, bars, Start(s), n)
  {
    StartHolds(s, bars, n);
  }

  lemma NextFits(s: Setup, bars: seq<Bar>, st: State, i: nat) returns (r: State)
    requires s.minCandles <= i < |bars| && Fits(s, bars, st, i)
    ensures r == OnBar(s, st, bars, i) && Fits(s, bars, r, i + 1)
  {
    r := BarKeeps(s, bars, st, i);
    var t := BarFits(s, bars, st, i);
  }

  lemma {:induction false} RunFits(s: Setup, bars: seq<Bar>, n: nat) returns (st: State)
    requires n <= |bars|
    ensures st == After(s, bars, n) && Fits(s, bars, st, n)
  {
    if n <= s.minCandles {
      st := Start(s);
      StartFits(s, bars, n);
    } else {
      var before := RunFits(s, bars, n - 1);
      st := NextFits(s, bars, before, n - 1);
    }
  }

  /** When a trade leaves, its stop is the tightest of its signal's and of those trailed by its bars, the exit bar
      included. */
  lemma {:induction false} StopIsTightest(s: Setup, bars: seq<Bar>, k: nat)
    requires k < |Finish(s, bars).trades|
    ensures var st := Finish(s, bars);
            var c := st.trades[k];
            c.trade.ask < |st.asked| && IsTightest(s, bars, st.asked[c.trade.ask].signal, c.trade, c.exitBar + 1)
  {
    var st := RunFits(s, bars, |bars|);
    var c := Finish(s, bars).trades[k];
    assert StopFits(s, bars, st.asked, c.trade, c.exitBar + 1);
  }

  // ---------------------------------------------------------------- when a trade leaves

  /** A trade still open after a bar had neither its stop, where it stands after that bar, nor its target touched. */
  lemma {:induction false} OpenIsUntouched(s: Setup, bars: seq<Bar>, n: nat)
    requires 0 < n <= |bars| && After(s, bars, n).open.Some?
    ensures var t := After(s, bars, n).open.value;
            !TouchesStop(t, bars[n - 1]) && !TouchesTarget(t, bars[n - 1])
  {
  }

  /** A trade that is open after the last bar, and no other, is closed by force. */
  lemma {:induction false} NothingStaysOpen(s: Setup, bars: seq<Bar>)
    ensures var st, end := After(s, bars, |bars|), Finish(s, bars);
            && end.open.None?
            && (st.open.None? ==> end.trades == st.trades)
            && (st.open.Some? ==>
                  && |end.trades| == |st.trades| + 1 && end.trades[..|st.trades|] == st.trades
                  && end.trades[|st.trades|].trade == st.open.value
                  && end.trades[|st.trades|].reason == ForcedExit)
            && forall k :: 0 <= k < |st.trades| ==> !st.trades[k].reason.ForcedExit?
  {
    var _ := RunInv(s, bars, |bars|);
  }

  /** The trade a waiting signal became on bar n, whatever became of its stop. */
  ghost predicate FilledAs(p: Pending, bar: Bar, n: nat, t: Trade) {
    && t.entryBar == n && t.entryTime == bar.time && t.entry == bar.open && t.quantity == p.quantity
    && t.kind == p.signal.kind && t.target == p.signal.target
  }

  /** The trade is open, or the last one closed. */
  ghost predicate HoldsFilled(st: State, p: Pending, bar: Bar, n: nat) {
    if st.open.Some? then FilledAs(p, bar, n, st.open.value)
    else |st.trades| > 0 && FilledAs(p, bar, n, st.trades[|st.trades| - 1].trade)
  }

  lemma ManageHoldsFilled(s: Setup, st: State, bar: Bar, p: Pending, n: nat)
    requires st.open.Some? && HoldsFilled(st, p, bar, n)
    ensures HoldsFilled(Manage(s, st, bar, n), p, bar, n)
  {
    TrailTightens(s, st.open.value, st.atr, bar);
  }

  lemma EvaluateKeepsTrades(s: Setup, st: State, bars: seq<Bar>, i: nat)
    requires i < |bars|
    ensures var u := Evaluate(s, st, bars, i);
            u.open == st.open && u.trades == st.trades && u.balance == st.balance && u.peak == st.peak
            && u.day == st.day && u.sim.realised == st.sim.realised && u.equity == st.equity
  {
  }

  /** A signal granted on one bar is a trade on the next, entered at its open with the granted quantity: open
      after it, or closed on it. */
  lemma {:induction false} GrantedIsFilled(s: Setup, bars: seq<Bar>, n: nat)
    requires n < |bars| && After(s, bars, n).pending.Some?
    ensures HoldsFilled(After(s, bars, n + 1), After(s, bars, n).pending.value, bars[n], n)
  {
    var st := RunInv(s, bars, n);
    var p := st.pending.value;
    var u := NewDay(Fill(st, bars[n], n), bars[n]);
    assert HoldsFilled(u, p, bars[n], n);
    ManageHoldsFilled(s, u, bars[n], p, n);
    EvaluateKeepsTrades(s, Manage(s, u, bars[n], n), bars, n);
  }

  // ---------------------------------------------------------------- signals and the day

  /** The day of this bar was halted on an earlier one. */
  ghost predicate DayIsHalted(st: State, bar: Bar) { st.sim.halted && st.day == Some(bar.day) }

  /** What the strategy says on bar n, from the last 201 candles. */
  ghost function Said(s: Setup, bars: seq<Bar>, n: nat): Option<Signal>
    requires n < |bars|
  {
    s.strategy(bars[if n >= 200 then n - 200 else 0..n + 1])
  }

  /** One more question, about this signal. */
  ghost predicate AsksAbout(before: seq<Query>, after: seq<Query>, g: Signal, st: State) {
    && |after| == |before| + 1 && after[..|before|] == before
    && var q := after[|before|];
       q.signal == g && q.balance == st.balance && q.peak == st.peak && q.sim.realised == st.sim.realised
  }

  ghost function AsInt(b: bool): int { if b then 1 else 0 }

  /** The verdict on the question just asked is counted, may halt the day, may leave a signal to be filled. */
  ghost predicate Counts(v: Verdict, g: Signal, time: int, st: State, u: State) {
    && u.sim.approved == st.sim.approved + AsInt(v.Approved?)
    && u.sim.blocked == st.sim.blocked + AsInt(v.Blocked?)
    && u.sim.skipped == st.sim.skipped + AsInt(v.Skipped?)
    && u.sim.lastSignal == (if v.Approved? then Some(time) else st.sim.lastSignal)
    && (u.sim.halted <==> v.Blocked? && (v.reason == "DAILY_LOSS_LIMIT_REACHED" || v.reason == "ACCOUNT_DRAWDOWN_HALT"))
    && (u.pending.Some? <==> v.Approved? && v.quantity.Some? && v.quantity.value > 0)
    && (u.pending.Some? ==> u.pending.value.signal == g && u.pending.value.quantity == v.quantity.value)
  }

  /** Nothing was asked: no count changes, the day stays as it was, and nothing waits. */
  ghost predicate CountsNothing(halted: bool, st: State, u: State) {
    && u.asked == st.asked && u.sim.approved == st.sim.approved && u.sim.blocked == st.sim.blocked
    && u.sim.skipped == st.sim.skipped && u.sim.lastSignal == st.sim.lastSignal
    && u.sim.halted == halted && u.pending.None?
  }

  lemma EvaluateAsks(s: Setup, st: State, bars: seq<Bar>, i: nat)
    requires i < |bars| && st.pending.None?
    ensures var u := Evaluate(s, st, bars, i);
            if st.open.None? && !st.sim.halted && Said(s, bars, i).Some?
            then AsksAbout(st.asked, u.asked, Said(s, bars, i).value, u)
                 && Counts(s.risk(u.asked), Said(s, bars, i).value, bars[i].time, st, u)
            else u == st && CountsNothing(st.sim.halted, st, u)
  {
    EvaluateKeepsTrades(s, st, bars, i);
  }

  lemma ManageAsksNothing(s: Setup, st: State, bar: Bar, i: nat)
    requires st.open.Some? ==> st.pending.None?
    ensures var u := Manage(s, NewDay(Fill(st, bar, i), bar), bar, i);
            CountsNothing(DayIsHalted(st, bar), st, u) && u.day == Some(bar.day)
  {
  }

  /** On every bar the strategy is heard exactly when no trade is open after the bar's exits and its day is not
      halted. Its signal is put to the risk engine with the balance, the peak and the day's result after those exits;
      the verdict is counted, a loss limit halts the day, and an approved quantity waits for the next open. */
  lemma {:induction false} AsksIff(s: Setup, bars: seq<Bar>, n: nat)
    requires s.minCandles <= n < |bars|
    ensures var st, u := After(s, bars, n), After(s, bars, n + 1);
            if u.open.None? && !DayIsHalted(st, bars[n]) && Said(s, bars, n).Some?
            then AsksAbout(st.asked, u.asked, Said(s, bars, n).value, u)
                 && Counts(s.risk(u.asked), Said(s, bars, n).value, bars[n].time, st, u)
            else CountsNothing(DayIsHalted(st, bars[n]), st, u)
  {
    NeverBoth(s, bars, n);
    var st := After(s, bars, n);
    var v := Manage(s, NewDay(Fill(st, bars[n], n), bars[n]), bars[n], n);
    ManageAsksNothing(s, st, bars[n], n);
    EvaluateKeepsTrades(s, v, bars, n);
    EvaluateAsks(s, v, bars, n);
  }

  /** Every question is counted once. */
  lemma {:induction false} CountsAddUp(s: Setup, bars: seq<Bar>, n: nat)
    requires n <= |bars|
    ensures var st := After(s, bars, n); st.sim.approved + st.sim.blocked + st.sim.skipped == |st.asked|
  {
    if n > s.minCandles {
      CountsAddUp(s, bars, n - 1);
      AsksIff(s, bars, n - 1);
    }
  }

  /** Bars from m on are of one day, the bar before m of another, or m is the first bar of the loop. */
  ghost predicate DayFrom(s: Setup, bars: seq<Bar>, m: nat, n: nat) {
    && s.minCandles <= m < n <= |bars| && (forall j :: m <= j < n ==> bars[j].day == bars[m].day)
    && (m == s.minCandles || bars[m - 1].day != bars[m].day)
  }

  lemma BarRealises(s: Setup, st: State, bars: seq<Bar>, i: nat) returns (u: State)
    requires i < |bars|
    ensures u == OnBar(s, st, bars, i) && u.day == Some(bars[i].day)
    ensures u.sim.realised == (if st.day == Some(bars[i].day) then st.sim.realised else 0.0) + u.balance - st.balance
  {
    var v := NewDay(Fill(st, bars[i], i), bars[i]);
    var w := Manage(s, v, bars[i], i);
    assert w.sim.realised == v.sim.realised + w.balance - v.balance && w.day == v.day;
    EvaluateKeepsTrades(s, w, bars, i);
    u := OnBar(s, st, bars, i);
  }

  lemma {:induction false} DayIsLastBars(s: Setup, bars: seq<Bar>, n: nat) returns (st: State)
    requires n <= |bars|
    ensures st == After(s, bars, n) && st.day == if n <= s.minCandles then None else Some(bars[n - 1].day)
  {
    if n <= s.minCandles {
      st := Start(s);
    } else {
      st := BarRealises(s, After(s, bars, n - 1), bars, n - 1);
    }
  }

  /** The realised result of the bar's day, on from what the day had realised before. */
  lemma {:induction false} RealisesOn(s: Setup, bars: seq<Bar>, n: nat) returns (st: State, u: State)
    requires s.minCandles <= n < |bars|
    ensures st == After(s, bars, n) && u == After(s, bars, n + 1)
    ensures u.sim.realised == u.balance - st.balance
                              + if n > s.minCandles && bars[n - 1].day == bars[n].day then st.sim.realised else 0.0
  {
    st := DayIsLastBars(s, bars, n);
    u := BarRealises(s, st, bars, n);
  }

  ghost function BalanceAt(s: Setup, bars: seq<Bar>, n: nat): real
    requires n <= |bars|
  {
    After(s, bars, n).balance
  }

  ghost function RealisedAt(s: Setup, bars: seq<Bar>, n: nat): real
    requires n <= |bars|
  {
    After(s, bars, n).sim.realised
  }

  lemma {:induction false} GainsOn(s: Setup, bars: seq<Bar>, n: nat)
    requires s.minCandles <= n < |bars|
    ensures RealisedAt(s, bars, n + 1)
            == BalanceAt(s, bars, n + 1) - BalanceAt(s, bars, n)
               + if n > s.minCandles && bars[n - 1].day == bars[n].day then RealisedAt(s, bars, n) else 0.0
  {
    var _, _ := RealisesOn(s, bars, n);
  }

  /** One figure follows from the last: what the balance gained, on from the day's before unless the day is new. */
  ghost predicate Follows(s: Setup, bars: seq<Bar>, balances: seq<real>, realised: seq<real>, i: nat)
    requires i < |bars| && i + 1 < |balances| == |realised|
  {
    realised[i + 1] == balances[i + 1] - balances[i]
                       + if i > s.minCandles && bars[i - 1].day == bars[i].day then realised[i] else 0.0
  }

  lemma {:induction false} GainsAddUp(s: Setup, bars: seq<Bar>, balances: seq<real>, realised: seq<real>, m: nat,
                                      n: nat)
    requires n < |balances| == |realised| && DayFrom(s, bars, m, n)
    requires forall i: nat :: m <= i < n ==> Follows(s, bars, balances, realised, i)
    ensures realised[n] == balances[n] - balances[m]
    decreases n
  {
    assert Follows(s, bars, balances, realised, n - 1);
    if n > m + 1 {
      assert DayFrom(s, bars, m, n - 1);
      GainsAddUp(s, bars, balances, realised, m, n - 1);
    }
  }

  /** Balance and realised result before each of the first n bars, and after the last of them. */
  ghost predicate Record(s: Setup, bars: seq<Bar>, balances: seq<real>, realised: seq<real>)
    requires |balances| == |realised| <= |bars| + 1
  {
    forall k :: 0 <= k < |balances| ==> balances[k] == BalanceAt(s, bars, k) && realised[k] == RealisedAt(s, bars, k)
  }

  lemma RecordFollows(s: Setup, bars: seq<Bar>, balances: seq<real>, realised: seq<real>, i: nat)
    requires |balances| == |realised| <= |bars| + 1 && Record(s, bars, balances, realised)
    requires s.minCandles <= i < |balances| - 1
    ensures Follows(s, bars, balances, realised, i)
  {
    GainsOn(s, bars, i);
  }

  lemma RecordOf(s: Setup, bars: seq<Bar>, n: nat) returns (balances: seq<real>, realised: seq<real>)
    requires n <= |bars|
    ensures |balances| == |realised| == n + 1 && Record(s, bars, balances, realised)
  {
    balances := seq(n + 1, k requires 0 <= k <= n => BalanceAt(s, bars, k));
    realised := seq(n + 1, k requires 0 <= k <= n => RealisedAt(s, bars, k));
  }

  /** The day's realised result is what the balance gained since the day began. */
  lemma {:induction false} RealisedIsToday(s: Setup, bars: seq<Bar>, m: nat, n: nat)
    requires DayFrom(s, bars, m, n)
    ensures RealisedAt(s, bars, n) == BalanceAt(s, bars, n) - BalanceAt(s, bars, m)
  {
    var balances, realised := RecordOf(s, bars, n);
    forall i: nat | m <= i < n ensures Follows(s, bars, balances, realised, i) {
      RecordFollows(s, bars, balances, realised, i);
    }
    GainsAddUp(s, bars, balances, realised, m, n);
  }

  // ---------------------------------------------------------------- the peak

  /** The highest of the numbers. */
  ghost predicate IsHighest(peak: real, xs: seq<real>) {
    (forall k :: 0 <= k < |xs| ==> xs[k] <= peak) && exists k :: 0 <= k < |xs| && xs[k] == peak
  }

  lemma HigherOf(peak: real, xs: seq<real>, x: real)
    requires IsHighest(peak, xs)
    ensures IsHighest(if x > peak then x else peak, xs + [x])
  {
    var k :| 0 <= k < |xs| && xs[k] == peak;
    assert (xs + [x])[k] == peak && (xs + [x])[|xs|] == x;
  }

  ghost predicate Peaks(st: State) { st.balance <= st.peak && IsHighest(st.peak, st.equity) }

  lemma StartPeaks(s: Setup)
    ensures Peaks(Start(s))
  {
    assert Start(s).equity[0] == Start(s).peak;
  }

  lemma BarPeaks(s: Setup, st: State, bars: seq<Bar>, i: nat) returns (u: State)
    requires i < |bars| && Peaks(st)
    ensures u == OnBar(s, st, bars, i) && Peaks(u)
  {
    var w := Manage(s, NewDay(Fill(st, bars[i], i), bars[i]), bars[i], i);
    assert w.peak == (if w.balance > st.peak then w.balance else st.peak) && w.equity == st.equity;
    EvaluateKeepsTrades(s, w, bars, i);
    HigherOf(st.peak, st.equity, w.balance);
    u := OnBar(s, st, bars, i);
    assert u.equity == st.equity + [w.balance] && u.balance == w.balance && u.peak == w.peak;
  }

  /** The peak the risk engine sees is the highest point of the equity curve. */
  lemma {:induction false} PeakIsHighest(s: Setup, bars: seq<Bar>, n: nat) returns (st: State)
    requires n <= |bars|
    ensures st == After(s, bars, n) && st.balance <= st.peak && IsHighest(st.peak, st.equity)
  {
    if n <= s.minCandles {
      st := Start(s);
      StartPeaks(s);
    } else {
      var before := PeakIsHighest(s, bars, n - 1);
      st := BarPeaks(s, before, bars, n - 1);
    }
  }
}
