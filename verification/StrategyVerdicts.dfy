/** What disables a strategy, told in terms of its results, and how long it stays disabled. */
module StrategyVerdicts {
  import opened Common
  import opened StrategyHealth

  // ---------------------------------------------------------------- the three rules

  ghost predicate FiveLosses(p: seq<real>) {
    |p| >= 5 && forall k :: |p| - 5 <= k < |p| ==> p[k] < 0.0
  }

  /** Where the winners among the last n results stand. */
  ghost function WinnersAmong(p: seq<real>, n: nat): set<nat>
    requires n <= |p|
  {
    set k: nat | |p| - n <= k < |p| && p[k] > 0.0
  }

  ghost predicate FewWinners(p: seq<real>) { |p| >= 20 && |WinnersAmong(p, 20)| <= 6 }

  ghost predicate NetLoss(p: seq<real>) { |p| >= 30 && Sum(p[|p| - 30..]) < 0.0 }

  /** n results at the end are losses, and not one more. */
  ghost predicate EndsInLosses(p: seq<real>, n: nat) {
    n <= |p| && (forall k :: |p| - n <= k < |p| ==> p[k] < 0.0) && (n < |p| ==> p[|p| - n - 1] >= 0.0)
  }

  lemma {:induction false} LossRunIs(p: seq<real>)
    ensures EndsInLosses(p, LossRun(p)) && (FiveLosses(p) <==> LossRun(p) >= 5)
  {
    if p != [] && p[|p| - 1] < 0.0 { LossRunIs(p[..|p| - 1]); }
  }

  lemma {:induction false} WinnersAreCounted(p: seq<real>, n: nat)
    requires n <= |p|
    ensures Winners(p[|p| - n..]) == |WinnersAmong(p, n)|
  {
    if n > 0 {
      var last, us := |p| - 1, p[..|p| - 1];
      WinnersAreCounted(us, n - 1);
      assert p[|p| - n..][..n - 1] == us[|us| - (n - 1)..];
      assert WinnersAmong(p, n) == WinnersAmong(us, n - 1) + if p[last] > 0.0 then {last} else {};
    }
  }

  lemma {:induction false} NetIsProfitLessLoss(p: seq<real>)
    ensures Sum(p) == GrossProfit(p) - GrossLoss(p) && GrossProfit(p) >= 0.0
  {
    if p != [] { NetIsProfitLessLoss(p[..|p| - 1]); }
  }

  lemma RulesMean(p: seq<real>)
    ensures LowWinRate(p) <==> FewWinners(p)
    ensures LowProfitFactor(p) <==> NetLoss(p)
  {
    if |p| >= 20 { WinnersAreCounted(p, 20); }
    if |p| >= 30 { NetIsProfitLessLoss(p[|p| - 30..]); }
  }

  /** The verdict on a history and its reason: five losses at the end before fewer than seven winners among the last
      twenty results before a net loss over the last thirty. */
  lemma {:induction false} VerdictMeans(p: seq<real>)
    ensures var verdict := ShouldDisable(LastN(p, PF_LOOKBACK), LossRun(p));
            && (FiveLosses(p) <==> verdict.Some? && verdict.value.ConsecutiveLosses?)
            && (FiveLosses(p) ==> EndsInLosses(p, verdict.value.n))
            && (!FiveLosses(p) && FewWinners(p) <==> verdict == Some(WinRateTooLow))
            && (!FiveLosses(p) && !FewWinners(p) && NetLoss(p) <==> verdict == Some(ProfitFactorTooLow))
    ensures Unhealthy(p) <==> FiveLosses(p) || FewWinners(p) || NetLoss(p)
  {
    LossRunIs(p);
    RecentOfWindow(p);
    RulesMean(p);
  }

  // ---------------------------------------------------------------- how long it lasts

  /** A pause, or none, and for how long. */
  ghost predicate Consistent(h: Health) {
    && (h.disabled <==> h.reason.Some?)
    && (h.pausedUntil.Some? <==> h.disabled && h.reason.value.ConsecutiveLosses?)
  }

  lemma {:induction false} RunIsConsistent(es: seq<Event>)
    ensures Consistent(Run(es))
  {
    if es != [] { RunIsConsistent(es[..|es| - 1]); }
  }

  lemma RunSnoc(es: seq<Event>, e: Event)
    ensures Pnls(es + [e]) == Pnls(es) + (if e.Trade? then [e.pnl] else [])
    ensures Run(es + [e]) == if e.Trade? then Recorded(Run(es), e.pnl, e.at)
                             else if e.Enable? then ReEnabled(Run(es)) else Asked(Run(es), e.at)
  {
    assert (es + [e])[..|es|] == es;
  }

  /** A result disables an enabled strategy exactly when its history has become unhealthy, until a day later for five
      losses and without end for the other reasons. */
  lemma {:induction false} TradeDisablesIff(es: seq<Event>, pnl: real, at: int)
    requires !Run(es).disabled
    ensures var p, h := Pnls(es) + [pnl], Run(es + [Trade(pnl, at)]);
            && (h.disabled <==> FiveLosses(p) || FewWinners(p) || NetLoss(p))
            && h.pausedUntil == if FiveLosses(p) then Some(at + 86_400_000) else None
  {
    var p := Pnls(es) + [pnl];
    RunSnoc(es, Trade(pnl, at));
    RunIsConsistent(es);
    WindowAndStreak(es + [Trade(pnl, at)]);
    VerdictMeans(p);
  }

  /** No re-enabling, and no question after this time. */
  ghost predicate UnaskedAfter(es: seq<Event>, until: int) {
    forall i :: 0 <= i < |es| ==> !es[i].Enable? && (es[i].Ask? ==> es[i].at <= until)
  }

  lemma {:induction false} StaysPaused(es: seq<Event>, more: seq<Event>, until: int)
    requires Run(es).disabled && Run(es).pausedUntil == Some(until) && UnaskedAfter(more, until)
    ensures Run(es + more).disabled && Run(es + more).pausedUntil == Some(until)
  {
    if more == [] {
      assert es + more == es;
    } else {
      var n := |more| - 1;
      StaysPaused(es, more[..n], until);
      assert es + more == es + more[..n] + [more[n]];
      RunSnoc(es + more[..n], more[n]);
    }
  }

  /** Five losses pause a strategy for a day: whatever it is asked or records until then, it stays disabled, and the
      first question after that re-enables it. */
  lemma {:induction false} PauseLastsADay(es: seq<Event>, pnl: real, at: int, more: seq<Event>, asked: int)
    requires !Run(es).disabled && FiveLosses(Pnls(es) + [pnl]) && UnaskedAfter(more, at + 86_400_000)
    ensures Run(es + [Trade(pnl, at)] + more).disabled
    ensures Run(es + [Trade(pnl, at)] + more + [Ask(asked)]).disabled <==> asked <= at + 86_400_000
  {
    TradeDisablesIff(es, pnl, at);
    StaysPaused(es + [Trade(pnl, at)], more, at + 86_400_000);
    RunSnoc(es + [Trade(pnl, at)] + more, Ask(asked));
  }

  /** For the other reasons it stays disabled until someone re-enables it, however long that takes. */
  lemma {:induction false} DisabledUntilEnabled(es: seq<Event>, more: seq<Event>)
    requires Run(es).disabled && Run(es).pausedUntil.None?
    requires forall i :: 0 <= i < |more| ==> !more[i].Enable?
    ensures Run(es + more).disabled && Run(es + more).pausedUntil.None? && !Run(es + more + [Enable]).disabled
  {
    if more == [] {
      assert es + more == es;
    } else {
      var n := |more| - 1;
      DisabledUntilEnabled(es, more[..n]);
      assert es + more == es + more[..n] + [more[n]];
      RunSnoc(es + more[..n], more[n]);
    }
    RunSnoc(es + more, Enable);
  }

  /** An enabled strategy is not disabled by questions or re-enabling. */
  lemma {:induction false} OnlyTradesDisable(es: seq<Event>, e: Event)
    requires !Run(es).disabled && !e.Trade?
    ensures !Run(es + [e]).disabled
  {
    RunSnoc(es, e);
  }
}
