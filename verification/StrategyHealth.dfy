/** Strategy health: the rolling window of trade results, the rules that disable a strategy, and the replay
    that rebuilds the state from the database. Times are milliseconds. */
module StrategyHealth {
  import opened Common

  const WIN_RATE_LOOKBACK: nat := 20
  const WIN_RATE_MIN_PCT: real := 35.0
  const PF_LOOKBACK: nat := 30
  const MAX_CONSECUTIVE_LOSSES: nat := 5
  const PAUSE_MS: int := 86_400_000

  datatype Reason = ConsecutiveLosses(n: nat) | WinRateTooLow | ProfitFactorTooLow

  datatype Health = Health(trades: seq<real>, consecutive: nat, disabled: bool, reason: Option<Reason>,
                           pausedUntil: Option<int>)

  const NEW := Health([], 0, false, None, None)

  function Winners(ts: seq<real>): nat {
    if ts == [] then 0 else Winners(ts[..|ts| - 1]) + if ts[|ts| - 1] > 0.0 then 1 else 0
  }

  function GrossProfit(ts: seq<real>): real {
    if ts == [] then 0.0 else GrossProfit(ts[..|ts| - 1]) + if ts[|ts| - 1] > 0.0 then ts[|ts| - 1] else 0.0
  }

  function GrossLoss(ts: seq<real>): real {
    if ts == [] then 0.0 else GrossLoss(ts[..|ts| - 1]) + if ts[|ts| - 1] < 0.0 then -ts[|ts| - 1] else 0.0
  }

  /** Among the last twenty trades, once there are as many. */
  predicate LowWinRate(trades: seq<real>) {
    var recent := LastN(trades, WIN_RATE_LOOKBACK);
    |recent| >= WIN_RATE_LOOKBACK && Winners(recent) as real / 20.0 * 100.0 < WIN_RATE_MIN_PCT
  }

  /** Profit over loss below 1, multiplied out. */
  predicate LowProfitFactor(trades: seq<real>) {
    var recent := LastN(trades, PF_LOOKBACK);
    |recent| >= PF_LOOKBACK && GrossLoss(recent) > 0.0 && GrossProfit(recent) < GrossLoss(recent)
  }

  function ShouldDisable(trades: seq<real>, consecutive: nat): Option<Reason> {
    if consecutive >= MAX_CONSECUTIVE_LOSSES then Some(ConsecutiveLosses(consecutive))
    else if LowWinRate(trades) then Some(WinRateTooLow)
    else if LowProfitFactor(trades) then Some(ProfitFactorTooLow)
    else None
  }

  function Recorded(h: Health, pnl: real, now: int): Health {
    var trades := Append(h.trades, pnl, PF_LOOKBACK);
    var consecutive := if pnl < 0.0 then h.consecutive + 1 else 0;
    var verdict := ShouldDisable(trades, consecutive);
    if verdict.Some? && !h.disabled
    then Health(trades, consecutive, true, verdict,
                if verdict.value.ConsecutiveLosses? then Some(now + PAUSE_MS) else h.pausedUntil)
    else h.(trades := trades, consecutive := consecutive)
  }

  function ReEnabled(h: Health): Health { h.(disabled := false, reason := None, pausedUntil := None) }

  predicate PauseOver(h: Health, now: int) { h.disabled && h.pausedUntil.Some? && now > h.pausedUntil.value }

  function Asked(h: Health, now: int): Health { if PauseOver(h, now) then ReEnabled(h) else h }

  // ---------------------------------------------------------------- the monitor

  datatype Row = Row(id: int, pnl: real)

  function Results(log: seq<Row>, id: int): seq<real> {
    if log == [] then []
    else Results(log[..|log| - 1], id) + if log[|log| - 1].id == id then [log[|log| - 1].pnl] else []
  }

  function Replay(pnls: seq<real>, now: int): Health {
    if pnls == [] then NEW else Recorded(Replay(pnls[..|pnls| - 1], now), pnls[|pnls| - 1], now)
  }

  class StrategyHealthMonitor {
    var states: map<int, Health>      // Redis
    var log: seq<Row>                 // the database, oldest first

    constructor ()
      ensures states == map[] && log == []
    {
      states, log := map[], [];
    }

    function Get(id: int): Health
      reads this
    {
      if id in states then states[id] else NEW
    }

    method RecordTrade(id: int, pnl: real, now: int)
      modifies this`states
      ensures states == old(states)[id := Recorded(old(Get(id)), pnl, now)]
    {
      var h := Get(id);
      h := h.(trades := Append(h.trades, pnl, PF_LOOKBACK));
      if pnl < 0.0 {
        h := h.(consecutive := h.consecutive + 1);
      } else {
        h := h.(consecutive := 0);
      }
      var verdict := ShouldDisable(h.trades, h.consecutive);
      if verdict.Some? && !h.disabled {
        h := h.(disabled := true, reason := verdict);
        if verdict.value.ConsecutiveLosses? {
          h := h.(pausedUntil := Some(now + PAUSE_MS));
        }
      }
      states := states[id := h];
    }

    /** Record in Redis, then persist; a database that fails is only logged. */
    method RecordTradeAsync(id: int, pnl: real, now: int, databaseUp: bool)
      modifies this
      ensures states == old(states)[id := Recorded(old(Get(id)), pnl, now)]
      ensures log == old(log) + if databaseUp then [Row(id, pnl)] else []
    {
      RecordTrade(id, pnl, now);
      if databaseUp {
        log := log + [Row(id, pnl)];
      }
    }

    method IsDisabled(id: int, now: int) returns (r: bool)
      modifies this`states
      ensures r == Asked(old(Get(id)), now).disabled && Get(id) == Asked(old(Get(id)), now)
      ensures forall k :: k != id ==> Get(k) == old(Get(k))
    {
      var h := Get(id);
      if !h.disabled {
        return false;
      }
      if h.pausedUntil.Some? && now > h.pausedUntil.value {
        states := states[id := h.(disabled := false, reason := None, pausedUntil := None)];
        return false;
      }
      return true;
    }

    method ReEnable(id: int)
      modifies this`states
      ensures states == old(states)[id := ReEnabled(old(Get(id)))]
    {
      states := states[id := Get(id).(disabled := false, reason := None, pausedUntil := None)];
    }

    method RecordAll(id: int, rows: seq<real>, now: int)
      requires id !in states
      modifies this`states
      ensures Get(id) == Replay(rows, now) && forall k :: k != id ==> Get(k) == old(Get(k))
    {
      for i := 0 to |rows|
        invariant Get(id) == Replay(rows[..i], now)
        invariant forall k :: k != id ==> Get(k) == old(Get(k))
      {
        assert rows[..i + 1][..i] == rows[..i];
        RecordTrade(id, rows[i], now);
      }
      assert rows[..|rows|] == rows;
    }

    /** Wipe a strategy and replay its last thirty results in the database. */
    method HydrateOne(id: int, now: int)
      modifies this`states
      ensures Get(id) == Replay(LastN(Results(log, id), PF_LOOKBACK), now)
              && forall k :: k != id ==> Get(k) == old(Get(k))
    {
      states := states - {id};
      RecordAll(id, LastN(Results(log, id), PF_LOOKBACK), now);
    }

    method Hydrate(ids: seq<int>, now: int)
      requires forall i, j :: 0 <= i < j < |ids| ==> ids[i] != ids[j]
      modifies this`states
      ensures forall i :: 0 <= i < |ids| ==> Get(ids[i]) == Replay(LastN(Results(log, ids[i]), PF_LOOKBACK), now)
      ensures forall id :: id !in ids ==> Get(id) == old(Get(id))
    {
      for i := 0 to |ids|
        invariant forall j :: 0 <= j < i ==> Get(ids[j]) == Replay(LastN(Results(log, ids[j]), PF_LOOKBACK), now)
        invariant forall id :: id !in ids ==> Get(id) == old(Get(id))
      {
        HydrateOne(ids[i], now);
      }
    }
  }

  // ---------------------------------------------------------------- runs

  datatype Event = Trade(pnl: real, at: int) | Enable | Ask(at: int)

  function Run(es: seq<Event>): Health {
    if es == [] then NEW
    else
      var h := Run(es[..|es| - 1]);
      match es[|es| - 1]
      case Trade(pnl, at) => Recorded(h, pnl, at)
      case Enable => ReEnabled(h)
      case Ask(at) => Asked(h, at)
  }

  function Pnls(es: seq<Event>): seq<real> {
    if es == [] then []
    else Pnls(es[..|es| - 1]) + match es[|es| - 1] case Trade(pnl, _) => [pnl] case _ => []
  }

  /** The losses at the end of a history. */
  function LossRun(pnls: seq<real>): (r: nat)
    ensures r <= |pnls|
  {
    if pnls == [] || pnls[|pnls| - 1] >= 0.0 then 0 else LossRun(pnls[..|pnls| - 1]) + 1
  }

  /** Through re-enables and expired pauses, the window is the last thirty results and the counter the losses
      at the end of the whole history. */
  lemma {:induction false} WindowAndStreak(es: seq<Event>)
    ensures Run(es).trades == LastN(Pnls(es), PF_LOOKBACK) && Run(es).consecutive == LossRun(Pnls(es))
  {
    if es != [] {
      var us := es[..|es| - 1];
      WindowAndStreak(us);
      if es[|es| - 1].Trade? {
        AppendIsLastN(Pnls(us), es[|es| - 1].pnl, PF_LOOKBACK);
        assert Pnls(es)[..|Pnls(us)|] == Pnls(us);
      } else {
        assert Pnls(es) == Pnls(us);
      }
    }
  }

  /** The verdict after a history. */
  predicate Unhealthy(pnls: seq<real>) {
    ShouldDisable(LastN(pnls, PF_LOOKBACK), LossRun(pnls)).Some?
  }

  ghost predicate OnlyTrades(es: seq<Event>) {
    forall i :: 0 <= i < |es| ==> es[i].Trade?
  }

  lemma {:induction false} PnlsOfTrades(es: seq<Event>)
    requires OnlyTrades(es)
    ensures |Pnls(es)| == |es|
  {
    if es != [] { PnlsOfTrades(es[..|es| - 1]); }
  }

  ghost predicate EverUnhealthy(pnls: seq<real>) {
    exists k :: 0 < k <= |pnls| && Unhealthy(pnls[..k])
  }

  lemma EverUnhealthyKeeps(p: seq<real>, x: real)
    requires EverUnhealthy(p)
    ensures EverUnhealthy(p + [x])
  {
    var k :| 0 < k <= |p| && Unhealthy(p[..k]);
    assert (p + [x])[..k] == p[..k];
  }

  lemma EverUnhealthySnoc(p: seq<real>, x: real)
    ensures EverUnhealthy(p + [x]) <==> EverUnhealthy(p) || Unhealthy(p + [x])
  {
    var q := p + [x];
    assert q[..|q|] == q;
    if EverUnhealthy(p) { EverUnhealthyKeeps(p, x); }
    if EverUnhealthy(q) {
      var k :| 0 < k <= |q| && Unhealthy(q[..k]);
      if k <= |p| { assert q[..k] == p[..k]; }
    }
  }

  /** A result disables exactly when the verdict after it is unhealthy. */
  lemma TradeLatches(us: seq<Event>, pnl: real, at: int)
    ensures Pnls(us + [Trade(pnl, at)]) == Pnls(us) + [pnl]
    ensures Run(us + [Trade(pnl, at)]).disabled <==> Run(us).disabled || Unhealthy(Pnls(us) + [pnl])
  {
    var es := us + [Trade(pnl, at)];
    assert es[..|us|] == us;
    WindowAndStreak(es);
    RecordedLatches(Run(us), pnl, at);
  }

  lemma RecordedLatches(h: Health, pnl: real, now: int)
    ensures var after := Recorded(h, pnl, now);
            after.disabled <==> h.disabled || ShouldDisable(after.trades, after.consecutive).Some?
  {
  }

  /** Without re-enabling, a strategy is disabled when it was ever found unhealthy. */
  lemma {:induction false} DisabledIffEverUnhealthy(es: seq<Event>)
    requires OnlyTrades(es)
    ensures Run(es).disabled <==> EverUnhealthy(Pnls(es))
  {
    if es != [] {
      var us, e := es[..|es| - 1], es[|es| - 1];
      DisabledIffEverUnhealthy(us);
      assert es == us + [Trade(e.pnl, e.at)];
      TradeLatches(us, e.pnl, e.at);
      EverUnhealthySnoc(Pnls(us), e.pnl);
    }
  }

  // ---------------------------------------------------------------- hydration

  function Trades(pnls: seq<real>, at: int): (es: seq<Event>)
    ensures |es| == |pnls| && OnlyTrades(es) && forall i :: 0 <= i < |es| ==> es[i] == Trade(pnls[i], at)
  {
    seq(|pnls|, i requires 0 <= i < |pnls| => Trade(pnls[i], at))
  }

  lemma TradesSnoc(pnls: seq<real>, at: int)
    requires pnls != []
    ensures var n := |pnls| - 1;
            Trades(pnls, at)[..n] == Trades(pnls[..n], at) && Trades(pnls, at)[n] == Trade(pnls[n], at)
  {
  }

  lemma {:induction false} PnlsOfReplay(pnls: seq<real>, at: int)
    ensures Pnls(Trades(pnls, at)) == pnls
  {
    if pnls != [] {
      PnlsOfReplay(pnls[..|pnls| - 1], at);
      TradesSnoc(pnls, at);
      assert pnls == pnls[..|pnls| - 1] + [pnls[|pnls| - 1]];
    }
  }

  lemma {:induction false} ReplayIsRun(pnls: seq<real>, at: int)
    ensures Replay(pnls, at) == Run(Trades(pnls, at))
  {
    if pnls != [] {
      ReplayIsRun(pnls[..|pnls| - 1], at);
      TradesSnoc(pnls, at);
    }
  }

  /** The losses at the end of a suffix are those of the whole, cut to its length. */
  lemma {:induction false} LossRunOfSuffix(p: seq<real>, a: nat)
    requires a <= |p|
    ensures LossRun(p[a..]) == if LossRun(p) <= |p| - a then LossRun(p) else |p| - a
  {
    if a < |p| {
      LossRunOfSuffix(p[..|p| - 1], a);
      assert p[a..][..|p| - a - 1] == p[..|p| - 1][a..];
    }
  }

  /** Where the last thirty results begin. */
  function From(p: seq<real>): (a: nat)
    ensures a <= |p| && LastN(p, PF_LOOKBACK) == p[a..]
  {
    if |p| <= PF_LOOKBACK then 0 else |p| - PF_LOOKBACK
  }

  /** The rules the history shows where the replay has seen k results, each only once the replay has enough
      results of its own: five losses, twenty for the win rate, all thirty for the profit factor. */
  predicate Visible(p: seq<real>, k: nat)
    requires From(p) + k <= |p|
  {
    var t := p[..From(p) + k];
    || (k >= MAX_CONSECUTIVE_LOSSES && LossRun(t) >= MAX_CONSECUTIVE_LOSSES)
    || (k >= WIN_RATE_LOOKBACK && LowWinRate(t))
    || (k >= PF_LOOKBACK && LowProfitFactor(t))
  }

  lemma SameRecent(t: seq<real>, a: nat, n: nat)
    requires a <= |t| && n <= |t| - a
    ensures LastN(t[a..], n) == LastN(t, n)
  {
  }

  /** A rule looks at its last n results only, and at nothing before it has as many. */
  lemma RulesOfSuffix(t: seq<real>, a: nat)
    requires a <= |t|
    ensures LowWinRate(t[a..]) <==> |t| - a >= WIN_RATE_LOOKBACK && LowWinRate(t)
    ensures LowProfitFactor(t[a..]) <==> |t| - a >= PF_LOOKBACK && LowProfitFactor(t)
  {
    if |t| - a >= WIN_RATE_LOOKBACK { SameRecent(t, a, WIN_RATE_LOOKBACK); }
    if |t| - a >= PF_LOOKBACK { SameRecent(t, a, PF_LOOKBACK); }
  }

  lemma ReplaySees(p: seq<real>, k: nat)
    requires From(p) + k <= |p|
    ensures Unhealthy(LastN(p, PF_LOOKBACK)[..k]) <==> Visible(p, k)
  {
    var a := From(p);
    var t := p[..a + k];
    assert p[a..][..k] == t[a..];
    UnhealthyRules(t[a..]);
    LossRunOfSuffix(t, a);
    RulesOfSuffix(t, a);
  }

  lemma RecentOfWindow(p: seq<real>)
    ensures LowWinRate(LastN(p, PF_LOOKBACK)) == LowWinRate(p)
            && LowProfitFactor(LastN(p, PF_LOOKBACK)) == LowProfitFactor(p)
  {
    assert LastN(LastN(p, PF_LOOKBACK), WIN_RATE_LOOKBACK) == LastN(p, WIN_RATE_LOOKBACK);
    assert LastN(LastN(p, PF_LOOKBACK), PF_LOOKBACK) == LastN(p, PF_LOOKBACK);
  }

  lemma UnhealthyRules(t: seq<real>)
    ensures Unhealthy(t) <==> LossRun(t) >= MAX_CONSECUTIVE_LOSSES || LowWinRate(t) || LowProfitFactor(t)
  {
    RecentOfWindow(t);
  }

  lemma RebuiltState(p: seq<real>, now: int)
    ensures var again := Replay(LastN(p, PF_LOOKBACK), now);
            && again.trades == LastN(p, PF_LOOKBACK)
            && again.consecutive == if LossRun(p) <= PF_LOOKBACK then LossRun(p) else PF_LOOKBACK
  {
    var q := LastN(p, PF_LOOKBACK);
    ReplayIsRun(q, now);
    PnlsOfReplay(q, now);
    WindowAndStreak(Trades(q, now));
    LossRunOfSuffix(p, From(p));
  }

  /** Exactly when a rebuilt strategy is disabled: some rule was visible to the replay at some point. */
  lemma RebuiltDisabledIff(p: seq<real>, now: int)
    ensures Replay(LastN(p, PF_LOOKBACK), now).disabled <==> exists k :: 0 < k <= |p| - From(p) && Visible(p, k)
  {
    var q := LastN(p, PF_LOOKBACK);
    ReplayIsRun(q, now);
    PnlsOfReplay(q, now);
    DisabledIffEverUnhealthy(Trades(q, now));
    forall k | 0 < k <= |q| ensures Unhealthy(q[..k]) <==> Visible(p, k) {
      ReplaySees(p, k);
    }
  }

  lemma SameVerdict(trades: seq<real>, m: nat, n: nat)
    requires m >= MAX_CONSECUTIVE_LOSSES <==> n >= MAX_CONSECUTIVE_LOSSES
    ensures ShouldDisable(trades, m).Some? <==> ShouldDisable(trades, n).Some?
  {
  }

  /** A rule the replay saw at some point was true of the history there. */
  lemma SeenWasUnhealthy(p: seq<real>)
    ensures (exists k :: 0 < k <= |p| - From(p) && Visible(p, k)) ==> EverUnhealthy(p)
    ensures |p| <= PF_LOOKBACK ==> (EverUnhealthy(p) <==> exists k :: 0 < k <= |p| - From(p) && Visible(p, k))
  {
    var a := From(p);
    if k :| 0 < k <= |p| - a && Visible(p, k) {
      UnhealthyRules(p[..a + k]);
      assert Unhealthy(p[..a + k]);
    }
    if |p| <= PF_LOOKBACK {
      forall k | 0 < k <= |p| ensures Unhealthy(p[..k]) <==> Visible(p, k) {
        ReplaySees(p, k);
      }
    }
  }

  lemma HydratedIsDisabled(es: seq<Event>, now: int)
    requires OnlyTrades(es)
    ensures var full, again := Run(es), Replay(LastN(Pnls(es), PF_LOOKBACK), now);
            (again.disabled ==> full.disabled) && (|es| <= PF_LOOKBACK ==> again.disabled == full.disabled)
  {
    PnlsOfTrades(es);
    DisabledIffEverUnhealthy(es);
    RebuiltDisabledIff(Pnls(es), now);
    SeenWasUnhealthy(Pnls(es));
  }

  /** Rebuilding from the last thirty results gives the window and the verdict of the uninterrupted run, and
      disables only what that run had disabled. */
  lemma HydrationIsSound(es: seq<Event>, now: int)
    requires OnlyTrades(es)
    ensures var full, again := Run(es), Replay(LastN(Pnls(es), PF_LOOKBACK), now);
            && again.trades == full.trades
            && again.consecutive == (if full.consecutive <= PF_LOOKBACK then full.consecutive else PF_LOOKBACK)
            && (ShouldDisable(again.trades, again.consecutive).Some?
                <==> ShouldDisable(full.trades, full.consecutive).Some?)
            && (again.disabled ==> full.disabled)
            && (|es| <= PF_LOOKBACK ==> again.disabled == full.disabled)
  {
    HydratedIsDisabled(es, now);
    WindowAndStreak(es);
    RebuiltState(Pnls(es), now);
    SameVerdict(Run(es).trades, Run(es).consecutive, Replay(LastN(Pnls(es), PF_LOOKBACK), now).consecutive);
  }

  lemma {:induction false} AllWinsAreHealthy(q: seq<real>)
    requires forall i :: 0 <= i < |q| ==> q[i] > 0.0
    ensures LossRun(q) == 0 && Winners(q) == |q| && GrossLoss(q) == 0.0
  {
    if q != [] { AllWinsAreHealthy(q[..|q| - 1]); }
  }

  /** The converse fails: five losses disable a strategy; after thirty wins a rebuild no longer knows. */
  lemma RebuildForgets(now: int)
    ensures var es := Trades(seq(5, i => -1.0) + seq(30, i => 1.0), now);
            Run(es).disabled && !Replay(LastN(Pnls(es), PF_LOOKBACK), now).disabled
  {
    var losses, wins := seq(5, i => -1.0), seq(30, i => 1.0);
    var p := losses + wins;
    var es := Trades(p, now);
    PnlsOfReplay(p, now);
    DisabledIffEverUnhealthy(es);
    assert p[..5] == losses;
    AllLosses(losses);
    UnhealthyRules(p[..5]);
    assert LastN(p, PF_LOOKBACK) == wins;
    ReplayIsRun(wins, now);
    PnlsOfReplay(wins, now);
    DisabledIffEverUnhealthy(Trades(wins, now));
    forall k | 0 < k <= 30 ensures !Unhealthy(wins[..k]) {
      WinsAreHealthy(wins[..k]);
    }
  }

  lemma WinsAreHealthy(q: seq<real>)
    requires forall i :: 0 <= i < |q| ==> q[i] > 0.0
    ensures !Unhealthy(q)
  {
    AllWinsAreHealthy(q);
    AllWinsAreHealthy(LastN(q, WIN_RATE_LOOKBACK));
    AllWinsAreHealthy(LastN(q, PF_LOOKBACK));
    UnhealthyRules(q);
  }

  lemma {:induction false} AllLosses(q: seq<real>)
    requires forall i :: 0 <= i < |q| ==> q[i] < 0.0
    ensures LossRun(q) == |q|
  {
    if q != [] { AllLosses(q[..|q| - 1]); }
  }
}
