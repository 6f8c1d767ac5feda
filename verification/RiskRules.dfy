/** The fail-fast chain of risk rules, position sizing, and the daily cap on signals per stock. Rules whose
    input lies outside the portfolio (error counts, losses, regime, volume, spread, clock, sectors) enter as
    arbitrary verdicts. */
module RiskRules {
  import opened Common

  datatype Rule =
    | ConsecutiveErrors | MinRiskReward | MarketRegime | DailyLoss | WeeklyLoss | AccountDrawdown | Cooldown
    | Volatility | PositionSizer | MaxPositionSize | MaxConcurrent | GrossExposure
    | Liquidity | Spread | TimeGate | SignalsPerStock | Correlation

  const RULES: seq<Rule> :=
    [ConsecutiveErrors, MinRiskReward, MarketRegime, DailyLoss, WeeklyLoss, AccountDrawdown, Cooldown,
     Volatility, PositionSizer, MaxPositionSize, MaxConcurrent, GrossExposure,
     Liquidity, Spread, TimeGate, SignalsPerStock, Correlation]

  datatype Status = Pass | Blocked | Skipped

  datatype Sizing = Sizing(quantity: int, riskAmount: real)

  datatype Decision = Decision(status: Status, reason: string, sizing: Option<Sizing>)

  const PASS := Decision(Pass, "", None)

  datatype Outcome = Approved(sizing: Option<Sizing>) | Refused(decision: Decision)

  datatype Config = Config(
    minAtr: real, maxAtr: real,
    riskPerTrade: real, maxDrawdown: real, maxPosition: real, maxExposure: real,   // fractions of the balance
    maxConcurrent: int, maxSignalsPerStock: int)

  datatype Signal = Signal(symbol: string, entry: real, stop: real, atr: real, scanner: bool)

  datatype Portfolio = Portfolio(balance: real, openPositions: int, openValues: seq<real>, committedRisk: real)

  /** How many signals of a symbol passed, on the day of the last one. */
  datatype Count = Count(day: nat, passed: nat)

  type Counts = map<string, Count>

  /** math.floor(a / b). */
  function FloorDiv(a: real, b: real): int
    requires b != 0.0
  {
    (a / b).Floor
  }

  function TradeRisk(c: Config, balance: real): real { balance * c.riskPerTrade }

  function RiskLimit(c: Config, balance: real): real { balance * c.maxDrawdown }

  function PositionCap(c: Config, balance: real): real { balance * c.maxPosition }

  function ExposureCap(c: Config, balance: real): real { balance * c.maxExposure }

  // ---------------------------------------------------------------- single rules

  function CheckVolatility(c: Config, g: Signal): Decision {
    if g.entry <= 0.0 then Decision(Skipped, "INVALID_ENTRY_PRICE", None)
    else
      var atrPct := g.atr / g.entry * 100.0;
      if atrPct < c.minAtr * 100.0 && !g.scanner then Decision(Skipped, "LOW_VOLATILITY", None)
      else if atrPct > c.maxAtr * 100.0 then Decision(Skipped, "HIGH_VOLATILITY", None)
      else PASS
  }

  function Size(distance: real, tradeRisk: real, committed: real, limit: real): Decision {
    if distance == 0.0 then Decision(Blocked, "INVALID_STOP_LOSS", None)
    else if committed + tradeRisk > limit then Decision(Blocked, "NO_RISK_BUDGET_LEFT", None)
    else
      var quantity := FloorDiv(tradeRisk, distance);
      if quantity < 1 then Decision(Blocked, "INSUFFICIENT_CAPITAL", None)
      else Decision(Pass, "", Some(Sizing(quantity, Round2(tradeRisk))))
  }

  function CheckSize(c: Config, g: Signal, p: Portfolio): Decision {
    Size(Abs(g.entry - g.stop), TradeRisk(c, p.balance), p.committedRisk, RiskLimit(c, p.balance))
  }

  function Capped(maxValue: real, entry: real, quantity: int): int
    requires entry > 0.0
  {
    if Worth(quantity, entry) > maxValue
    then var capped := FloorDiv(maxValue, entry); if capped >= 1 then capped else 1
    else quantity
  }

  function CapQuantity(c: Config, g: Signal, p: Portfolio, quantity: int): int
    requires g.entry > 0.0
  {
    Capped(PositionCap(c, p.balance), g.entry, quantity)
  }

  function CheckConcurrent(c: Config, p: Portfolio): Decision {
    if p.openPositions >= c.maxConcurrent then Decision(Skipped, "MAX_POSITIONS_OPEN", None) else PASS
  }

  function CheckExposure(c: Config, p: Portfolio): Decision {
    if Sum(p.openValues) >= ExposureCap(c, p.balance) then Decision(Skipped, "GROSS_EXPOSURE_LIMIT", None) else PASS
  }

  /** The per-stock rule: its verdict, and the counts it leaves. The first signal of a day always passes. */
  function CountSignal(counts: Counts, symbol: string, day: nat, maxPer: int): (Counts, bool) {
    if symbol !in counts || counts[symbol].day != day then (counts[symbol := Count(day, 1)], true)
    else if counts[symbol].passed >= maxPer then (counts, false)
    else (counts[symbol := Count(day, counts[symbol].passed + 1)], true)
  }

  /** What the rule writes back to the day's row: the new count of a signal that passes. */
  function WrittenBack(row: map<string, nat>, counts: Counts, symbol: string, day: nat, maxPer: int): map<string, nat> {
    var (after, pass) := CountSignal(counts, symbol, day, maxPer);
    if pass then row[symbol := after[symbol].passed] else row
  }

  /** What a rule says about a signal. */
  function Verdict(r: Rule, c: Config, counts: Counts, g: Signal, p: Portfolio, day: nat, others: Rule -> Status)
    : Decision
  {
    match r
    case Volatility => CheckVolatility(c, g)
    case PositionSizer => CheckSize(c, g, p)
    case MaxPositionSize => PASS
    case MaxConcurrent => CheckConcurrent(c, p)
    case GrossExposure => CheckExposure(c, p)
    case SignalsPerStock =>
      if CountSignal(counts, g.symbol, day, c.maxSignalsPerStock).1 then PASS
      else Decision(Skipped, "MAX_SIGNALS_PER_STOCK", None)
    case _ => Decision(others(r), "", None)
  }

  /** The first n rules pass. */
  predicate Passes(n: nat, c: Config, counts: Counts, g: Signal, p: Portfolio, day: nat, others: Rule -> Status)
    requires n <= |RULES|
  {
    forall i :: 0 <= i < n ==> Verdict(RULES[i], c, counts, g, p, day, others).status == Pass
  }

  predicate Approves(c: Config, counts: Counts, g: Signal, p: Portfolio, day: nat, others: Rule -> Status) {
    Passes(|RULES|, c, counts, g, p, day, others)
  }

  /** An approval fits every portfolio limit: the risk budget, the free slots, the exposure cap. */
  lemma ApprovalFits(c: Config, counts: Counts, g: Signal, p: Portfolio, day: nat, others: Rule -> Status)
    requires Approves(c, counts, g, p, day, others)
    ensures g.entry > 0.0 && CheckSize(c, g, p).sizing.Some?
    ensures p.committedRisk + TradeRisk(c, p.balance) <= RiskLimit(c, p.balance)
    ensures p.openPositions + 1 <= c.maxConcurrent
    ensures Sum(p.openValues) < ExposureCap(c, p.balance)
  {
    assert Verdict(RULES[7], c, counts, g, p, day, others) == CheckVolatility(c, g);
    assert Verdict(RULES[8], c, counts, g, p, day, others) == CheckSize(c, g, p);
    assert Verdict(RULES[10], c, counts, g, p, day, others) == CheckConcurrent(c, p);
    assert Verdict(RULES[11], c, counts, g, p, day, others) == CheckExposure(c, p);
  }

  /** The ATR lies in the configured band, as a share of the entry price; scanner signals need no minimum. */
  ghost predicate InBand(c: Config, g: Signal) {
    g.entry > 0.0 && (g.scanner || g.atr >= c.minAtr * g.entry) && g.atr <= c.maxAtr * g.entry
  }

  /** One more trade at full risk keeps within the risk limit, and buys a share at least. */
  ghost predicate RiskFits(c: Config, g: Signal, p: Portfolio) {
    && g.entry != g.stop
    && p.committedRisk + p.balance * c.riskPerTrade <= p.balance * c.maxDrawdown
    && (if g.entry > g.stop then g.entry - g.stop else g.stop - g.entry) <= p.balance * c.riskPerTrade
  }

  ghost predicate SlotsFit(c: Config, p: Portfolio) {
    p.openPositions < c.maxConcurrent && Sum(p.openValues) < p.balance * c.maxExposure
  }

  ghost predicate StockHasSignalsLeft(c: Config, counts: Counts, g: Signal, day: nat) {
    g.symbol in counts && counts[g.symbol].day == day ==> counts[g.symbol].passed < c.maxSignalsPerStock
  }

  lemma PercentCompares(atr: real, entry: real, fraction: real)
    requires entry > 0.0
    ensures atr / entry * 100.0 < fraction * 100.0 <==> atr < fraction * entry
    ensures atr / entry * 100.0 > fraction * 100.0 <==> atr > fraction * entry
  {
    var share := atr / entry;
    assert share * entry == atr;
    Scales(share, fraction, entry);
    Scales(fraction, share, entry);
  }

  /** The volatility rule refuses exactly outside the band, for one of three reasons. */
  lemma {:induction false} VolatilityRefusals(c: Config, g: Signal)
    ensures CheckVolatility(c, g) == PASS <==> InBand(c, g)
    ensures g.entry <= 0.0 <==> CheckVolatility(c, g) == Decision(Skipped, "INVALID_ENTRY_PRICE", None)
    ensures g.entry > 0.0 && !g.scanner && g.atr < c.minAtr * g.entry
            <==> CheckVolatility(c, g) == Decision(Skipped, "LOW_VOLATILITY", None)
    ensures g.entry > 0.0 && (g.scanner || g.atr >= c.minAtr * g.entry) && g.atr > c.maxAtr * g.entry
            <==> CheckVolatility(c, g) == Decision(Skipped, "HIGH_VOLATILITY", None)
  {
    if g.entry > 0.0 {
      PercentCompares(g.atr, g.entry, c.minAtr);
      PercentCompares(g.atr, g.entry, c.maxAtr);
    }
    assert "INVALID_ENTRY_PRICE"[0] == 'I' && "LOW_VOLATILITY"[0] == 'L' && "HIGH_VOLATILITY"[0] == 'H';
  }

  /** The sizing rule refuses exactly when the trade's risk does not fit, for one of three reasons in this order. */
  lemma {:induction false} SizingRefusals(c: Config, g: Signal, p: Portfolio)
    ensures CheckSize(c, g, p).status == Pass <==> RiskFits(c, g, p)
    ensures g.entry == g.stop <==> CheckSize(c, g, p) == Decision(Blocked, "INVALID_STOP_LOSS", None)
    ensures g.entry != g.stop && p.committedRisk + p.balance * c.riskPerTrade > p.balance * c.maxDrawdown
            <==> CheckSize(c, g, p) == Decision(Blocked, "NO_RISK_BUDGET_LEFT", None)
    ensures !RiskFits(c, g, p) && g.entry != g.stop
            && p.committedRisk + p.balance * c.riskPerTrade <= p.balance * c.maxDrawdown
            <==> CheckSize(c, g, p) == Decision(Blocked, "INSUFFICIENT_CAPITAL", None)
  {
    var distance := if g.entry > g.stop then g.entry - g.stop else g.stop - g.entry;
    var tradeRisk, limit := p.balance * c.riskPerTrade, p.balance * c.maxDrawdown;
    assert TradeRisk(c, p.balance) == tradeRisk && RiskLimit(c, p.balance) == limit;
    assert Abs(g.entry - g.stop) == distance;
    SizeRefusals(distance, tradeRisk, p.committedRisk, limit);
  }

  lemma SizeRefusals(distance: real, tradeRisk: real, committed: real, limit: real)
    requires distance >= 0.0
    ensures var d := Size(distance, tradeRisk, committed, limit);
            && (distance == 0.0 <==> d == Decision(Blocked, "INVALID_STOP_LOSS", None))
            && (distance > 0.0 && committed + tradeRisk > limit
                <==> d == Decision(Blocked, "NO_RISK_BUDGET_LEFT", None))
            && (distance > 0.0 && committed + tradeRisk <= limit && distance > tradeRisk
                <==> d == Decision(Blocked, "INSUFFICIENT_CAPITAL", None))
            && (distance > 0.0 && committed + tradeRisk <= limit && distance <= tradeRisk <==> d.status == Pass)
  {
    if distance > 0.0 { FloorQuotient(tradeRisk, distance, 1); }
    assert "INVALID_STOP_LOSS"[2] == 'V' && "INSUFFICIENT_CAPITAL"[2] == 'S' && "NO_RISK_BUDGET_LEFT"[0] == 'N';
  }

  /** What a rule of the portfolio asks for. */
  ghost predicate Allows(r: Rule, c: Config, counts: Counts, g: Signal, p: Portfolio, day: nat, others: Rule -> Status)
  {
    match r
    case Volatility => InBand(c, g)
    case PositionSizer => RiskFits(c, g, p)
    case MaxPositionSize => true
    case MaxConcurrent => p.openPositions < c.maxConcurrent
    case GrossExposure => Sum(p.openValues) < p.balance * c.maxExposure
    case SignalsPerStock => StockHasSignalsLeft(c, counts, g, day)
    case _ => others(r) == Pass
  }

  lemma {:induction false} PassesIfAllowed(r: Rule, c: Config, counts: Counts, g: Signal, p: Portfolio, day: nat,
                                           others: Rule -> Status)
    ensures Verdict(r, c, counts, g, p, day, others).status == Pass <==> Allows(r, c, counts, g, p, day, others)
  {
    if r == Volatility { VolatilityRefusals(c, g); }
    if r == PositionSizer { SizingRefusals(c, g, p); }
  }

  /** Where a rule stands in the chain. */
  function Place(r: Rule): (i: nat)
    ensures i < |RULES| && RULES[i] == r
  {
    match r
    case ConsecutiveErrors => 0
    case MinRiskReward => 1
    case MarketRegime => 2
    case DailyLoss => 3
    case WeeklyLoss => 4
    case AccountDrawdown => 5
    case Cooldown => 6
    case Volatility => 7
    case PositionSizer => 8
    case MaxPositionSize => 9
    case MaxConcurrent => 10
    case GrossExposure => 11
    case Liquidity => 12
    case Spread => 13
    case TimeGate => 14
    case SignalsPerStock => 15
    case Correlation => 16
  }

  /** The rules that look at the signal and the portfolio; the others have input from outside. */
  predicate Modelled(r: Rule) {
    || r.Volatility? || r.PositionSizer? || r.MaxPositionSize?
    || r.MaxConcurrent? || r.GrossExposure? || r.SignalsPerStock?
  }

  lemma {:induction false} ApprovesIfAllAllow(c: Config, counts: Counts, g: Signal, p: Portfolio, day: nat,
                                              others: Rule -> Status)
    ensures Approves(c, counts, g, p, day, others) <==> forall r: Rule :: Allows(r, c, counts, g, p, day, others)
  {
    if Approves(c, counts, g, p, day, others) {
      forall r: Rule ensures Allows(r, c, counts, g, p, day, others) {
        assert Verdict(RULES[Place(r)], c, counts, g, p, day, others).status == Pass;
        PassesIfAllowed(r, c, counts, g, p, day, others);
      }
    } else {
      var i :| 0 <= i < |RULES| && Verdict(RULES[i], c, counts, g, p, day, others).status != Pass;
      PassesIfAllowed(RULES[i], c, counts, g, p, day, others);
    }
  }

  /** A signal is approved exactly when it lies in the volatility band, its risk fits, a slot and exposure are left,
      its stock has signals left that day, and none of the rules with outside input objects. */
  lemma {:induction false} ApprovesIff(c: Config, counts: Counts, g: Signal, p: Portfolio, day: nat,
                                       others: Rule -> Status)
    ensures Approves(c, counts, g, p, day, others)
            <==> && InBand(c, g) && RiskFits(c, g, p) && SlotsFit(c, p) && StockHasSignalsLeft(c, counts, g, day)
                 && (forall r: Rule :: !Modelled(r) ==> others(r) == Pass)
  {
    ApprovesIfAllAllow(c, counts, g, p, day, others);
    if Approves(c, counts, g, p, day, others) {
      assert Allows(Volatility, c, counts, g, p, day, others) && Allows(PositionSizer, c, counts, g, p, day, others);
      assert Allows(MaxConcurrent, c, counts, g, p, day, others) && Allows(GrossExposure, c, counts, g, p, day, others);
      assert Allows(SignalsPerStock, c, counts, g, p, day, others);
      forall r: Rule | !Modelled(r) ensures others(r) == Pass {
        assert Allows(r, c, counts, g, p, day, others);
      }
    }
  }

  /** Which rule refused: a reason is given only when every earlier rule had nothing to object. */
  lemma {:induction false} RefusedFor(i: nat, c: Config, counts: Counts, g: Signal, p: Portfolio, day: nat,
                                      others: Rule -> Status)
    requires i < |RULES| && Passes(i, c, counts, g, p, day, others)
    requires Verdict(RULES[i], c, counts, g, p, day, others).status != Pass
    ensures var d := Verdict(RULES[i], c, counts, g, p, day, others);
            && (RULES[i] == PositionSizer ==> InBand(c, g) && !RiskFits(c, g, p))
            && (RULES[i] == MaxConcurrent ==>
                  InBand(c, g) && RiskFits(c, g, p) && p.openPositions >= c.maxConcurrent
                  && d == Decision(Skipped, "MAX_POSITIONS_OPEN", None))
            && (RULES[i] == GrossExposure ==>
                  InBand(c, g) && RiskFits(c, g, p) && p.openPositions < c.maxConcurrent && !SlotsFit(c, p)
                  && d == Decision(Skipped, "GROSS_EXPOSURE_LIMIT", None))
            && (RULES[i] == SignalsPerStock ==>
                  InBand(c, g) && RiskFits(c, g, p) && SlotsFit(c, p) && !StockHasSignalsLeft(c, counts, g, day)
                  && d == Decision(Skipped, "MAX_SIGNALS_PER_STOCK", None))
            && (RULES[i] == Correlation ==>
                  InBand(c, g) && RiskFits(c, g, p) && SlotsFit(c, p) && StockHasSignalsLeft(c, counts, g, day))
  {
    PassesIfAllowed(RULES[i], c, counts, g, p, day, others);
    forall r: Rule | Place(r) < i ensures Allows(r, c, counts, g, p, day, others) {
      assert Verdict(RULES[Place(r)], c, counts, g, p, day, others).status == Pass;
      PassesIfAllowed(r, c, counts, g, p, day, others);
    }
    assert Place(RULES[i]) == i;
    assert i > 7 ==> Allows(Volatility, c, counts, g, p, day, others);
    assert i > 8 ==> Allows(PositionSizer, c, counts, g, p, day, others);
    assert i > 10 ==> Allows(MaxConcurrent, c, counts, g, p, day, others);
    assert i > 11 ==> Allows(GrossExposure, c, counts, g, p, day, others);
    assert i > 15 ==> Allows(SignalsPerStock, c, counts, g, p, day, others);
  }

  /** The circuit breakers come before every rule of the portfolio, the market's rules before the per-stock one. */
  lemma {:induction false} BreakersComeFirst(r: Rule, i: nat, c: Config, counts: Counts, g: Signal, p: Portfolio,
                                             day: nat, others: Rule -> Status)
    requires i < |RULES| && Passes(i, c, counts, g, p, day, others)
    requires || ((r.ConsecutiveErrors? || r.MinRiskReward? || r.MarketRegime? || r.DailyLoss? || r.WeeklyLoss?
                  || r.AccountDrawdown? || r.Cooldown?) && Modelled(RULES[i]))
             || ((r.Liquidity? || r.Spread? || r.TimeGate?) && RULES[i].SignalsPerStock?)
    ensures others(r) == Pass
  {
    assert Place(RULES[i]) == i && Place(r) < i;
    assert Verdict(RULES[Place(r)], c, counts, g, p, day, others).status == Pass;
  }

  lemma OneSizesOneCounts(i: nat, c: Config, counts: Counts, g: Signal, p: Portfolio, day: nat,
                          others: Rule -> Status)
    requires i < |RULES|
    ensures RULES[i] == SignalsPerStock <==> i == 15
    ensures Verdict(RULES[i], c, counts, g, p, day, others).status == Pass ==>
              Verdict(RULES[i], c, counts, g, p, day, others).sizing
              == if i == 8 then CheckSize(c, g, p).sizing else None
  {
  }

  /** The sizing of an approved signal: the full size, capped. */
  function Granted(c: Config, counts: Counts, g: Signal, p: Portfolio, day: nat, others: Rule -> Status): Sizing
    requires Approves(c, counts, g, p, day, others)
  {
    ApprovalFits(c, counts, g, p, day, others);
    var full := CheckSize(c, g, p).sizing.value;
    full.(quantity := CapQuantity(c, g, p, full.quantity))
  }

  // ---------------------------------------------------------------- the engine

  /** The part of a day's row the engine writes. */
  class DailyRiskState {
    var signalsPerStock: map<string, nat>

    constructor ()
      ensures signalsPerStock == map[]
    {
      signalsPerStock := map[];
    }
  }

  class RiskEngine {
    const config: Config
    var counts: Counts

    constructor (config: Config)
      ensures this.config == config && counts == map[]
    {
      this.config, counts := config, map[];
    }

    method CheckSignals(symbol: string, day: nat, state: DailyRiskState) returns (pass: bool)
      modifies this, state
      ensures (counts, pass) == CountSignal(old(counts), symbol, day, config.maxSignalsPerStock)
      ensures state.signalsPerStock
              == WrittenBack(old(state.signalsPerStock), old(counts), symbol, day, config.maxSignalsPerStock)
    {
      if symbol !in counts || counts[symbol].day != day {
        counts := counts[symbol := Count(day, 1)];
        state.signalsPerStock := state.signalsPerStock[symbol := 1];
        return true;
      }
      var passed := counts[symbol].passed;
      if passed >= config.maxSignalsPerStock {
        return false;
      }
      counts := counts[symbol := Count(day, passed + 1)];
      state.signalsPerStock := state.signalsPerStock[symbol := passed + 1];
      return true;
    }

    method Check(r: Rule, g: Signal, p: Portfolio, day: nat, others: Rule -> Status, state: DailyRiskState)
      returns (d: Decision)
      modifies this, state
      ensures d == Verdict(r, config, old(counts), g, p, day, others)
      ensures counts == if r == SignalsPerStock
                        then CountSignal(old(counts), g.symbol, day, config.maxSignalsPerStock).0 else old(counts)
      ensures state.signalsPerStock
              == if r == SignalsPerStock
                 then WrittenBack(old(state.signalsPerStock), old(counts), g.symbol, day, config.maxSignalsPerStock)
                 else old(state.signalsPerStock)
    {
      if r == SignalsPerStock {
        var pass := CheckSignals(g.symbol, day, state);
        d := if pass then PASS else Decision(Skipped, "MAX_SIGNALS_PER_STOCK", None);
      } else {
        d := Verdict(r, config, counts, g, p, day, others);
      }
    }

    /** Every rule in order; the first refusal decides. A signal that comes as far as the per-stock rule uses
        up one of its day's signals there, even when the last rule refuses it. */
    method Validate(g: Signal, p: Portfolio, day: nat, others: Rule -> Status, state: DailyRiskState)
      returns (o: Outcome)
      modifies this, state
      ensures o.Approved? <==> Approves(config, old(counts), g, p, day, others)
      ensures o.Approved? ==> o.sizing == Some(Granted(config, old(counts), g, p, day, others))
      ensures o.Refused? ==>
                exists i :: 0 <= i < |RULES| && Passes(i, config, old(counts), g, p, day, others)
                            && o.decision == Verdict(RULES[i], config, old(counts), g, p, day, others)
                            && o.decision.status != Pass
      ensures counts == if Passes(15, config, old(counts), g, p, day, others)
                        then CountSignal(old(counts), g.symbol, day, config.maxSignalsPerStock).0 else old(counts)
      ensures state.signalsPerStock
              == if Passes(15, config, old(counts), g, p, day, others)
                 then WrittenBack(old(state.signalsPerStock), old(counts), g.symbol, day, config.maxSignalsPerStock)
                 else old(state.signalsPerStock)
    {
      var sizing := None;
      ghost var counted := CountSignal(counts, g.symbol, day, config.maxSignalsPerStock).0;
      ghost var written := WrittenBack(state.signalsPerStock, counts, g.symbol, day, config.maxSignalsPerStock);
      for i := 0 to |RULES|
        invariant counts == (if i <= 15 then old(counts) else counted)
        invariant state.signalsPerStock == (if i <= 15 then old(state.signalsPerStock) else written)
        invariant Passes(i, config, old(counts), g, p, day, others)
        invariant sizing == if i <= 8 then None else CheckSize(config, g, p).sizing
      {
        OneSizesOneCounts(i, config, counts, g, p, day, others);
        var d := Check(RULES[i], g, p, day, others, state);
        if d.status != Pass {
          return Refused(d);
        }
        if d.sizing.Some? {
          sizing := d.sizing;
        }
      }
      ApprovalFits(config, old(counts), g, p, day, others);
      if sizing.Some? {
        sizing := Some(sizing.value.(quantity := CapQuantity(config, g, p, sizing.value.quantity)));
      }
      return Approved(sizing);
    }
  }

  // ---------------------------------------------------------------- what approval means

  lemma FloorQuotient(a: real, b: real, n: int)
    requires b > 0.0
    ensures n as real * b <= a <==> n <= FloorDiv(a, b)
  {
    var x := a / b;
    assert x * b == a;
    Scales(n as real, x, b);
  }

  predicate Affordable(n: int, price: real, limit: real) { n as real * price <= limit }

  /** n shares risk no more than the trade's budget and are worth no more than the position cap. */
  predicate Fits(c: Config, g: Signal, p: Portfolio, n: int) {
    && Affordable(n, if g.entry > g.stop then g.entry - g.stop else g.stop - g.entry, p.balance * c.riskPerTrade)
    && Affordable(n, g.entry, p.balance * c.maxPosition)
  }

  /** What the cap does, in terms of the largest quantities the two limits allow. */
  lemma CapIsLeast(maxValue: real, entry: real, quantity: int)
    requires entry > 0.0 && quantity >= 1
    ensures var most := FloorDiv(maxValue, entry);
            Capped(maxValue, entry, quantity) == if quantity <= most then quantity else if most >= 1 then most else 1
  {
    FloorQuotient(maxValue, entry, quantity);
  }

  lemma CappedIsLargest(distance: real, budget: real, committed: real, limit: real, entry: real, cap: real, n: int)
    requires entry > 0.0 && distance >= 0.0 && Size(distance, budget, committed, limit).sizing.Some?
    ensures var quantity := Capped(cap, entry, Size(distance, budget, committed, limit).sizing.value.quantity);
            && quantity >= 1 && Affordable(quantity, distance, budget)
            && (Affordable(n, distance, budget) && Affordable(n, entry, cap) ==> n <= quantity)
            && (Affordable(quantity, entry, cap) || (quantity == 1 && !Affordable(1, entry, cap)))
  {
    var full := FloorDiv(budget, distance);
    var quantity := Capped(cap, entry, full);
    CapIsLeast(cap, entry, full);
    AffordableUpTo(n, distance, budget);
    AffordableUpTo(quantity, distance, budget);
    AffordableUpTo(n, entry, cap);
    AffordableUpTo(quantity, entry, cap);
  }

  lemma AffordableUpTo(n: int, price: real, limit: real)
    requires price > 0.0
    ensures Affordable(n, price, limit) <==> n <= FloorDiv(limit, price)
  {
    FloorQuotient(limit, price, n);
  }

  /** The approved quantity is the largest that fits, if any does; otherwise it is one share, which the risk
      budget allows but the position cap does not. */
  lemma SizingIsLargest(c: Config, g: Signal, p: Portfolio, n: int)
    requires g.entry > 0.0 && CheckSize(c, g, p).sizing.Some?
    ensures var quantity := CapQuantity(c, g, p, CheckSize(c, g, p).sizing.value.quantity);
            && quantity >= 1 && Affordable(quantity, Abs(g.entry - g.stop), p.balance * c.riskPerTrade)
            && (Fits(c, g, p, n) ==> n <= quantity)
            && (Fits(c, g, p, quantity) || (quantity == 1 && !Affordable(1, g.entry, p.balance * c.maxPosition)))
  {
    var tradeRisk, cap := TradeRisk(c, p.balance), PositionCap(c, p.balance);
    CappedIsLargest(Abs(g.entry - g.stop), tradeRisk, p.committedRisk, RiskLimit(c, p.balance), g.entry, cap, n);
    FitsBoth(c, g, p, n);
    FitsBoth(c, g, p, CapQuantity(c, g, p, CheckSize(c, g, p).sizing.value.quantity));
  }

  lemma FitsBoth(c: Config, g: Signal, p: Portfolio, n: int)
    ensures Fits(c, g, p, n)
            <==> && Affordable(n, Abs(g.entry - g.stop), TradeRisk(c, p.balance))
                 && Affordable(n, g.entry, PositionCap(c, p.balance))
    ensures TradeRisk(c, p.balance) == p.balance * c.riskPerTrade
    ensures PositionCap(c, p.balance) == p.balance * c.maxPosition
  {
    assert Abs(g.entry - g.stop) == if g.entry > g.stop then g.entry - g.stop else g.stop - g.entry;
  }

  /** No approved position is worth more than the position cap or one share, whichever is more. */
  lemma ValueIsCapped(c: Config, g: Signal, p: Portfolio)
    requires g.entry > 0.0 && CheckSize(c, g, p).sizing.Some?
    ensures var quantity := CapQuantity(c, g, p, CheckSize(c, g, p).sizing.value.quantity);
            0.0 <= Worth(quantity, g.entry) <= Max(PositionCap(c, p.balance), g.entry)
  {
    SizingIsLargest(c, g, p, 0);
  }

  // ---------------------------------------------------------------- signals per stock and day

  datatype Ask = Ask(symbol: string, day: nat)

  function CountsAfter(asks: seq<Ask>, maxPer: int): Counts {
    if asks == [] then map[]
    else
      var a := asks[|asks| - 1];
      CountSignal(CountsAfter(asks[..|asks| - 1], maxPer), a.symbol, a.day, maxPer).0
  }

  function Asked(asks: seq<Ask>, a: Ask): nat {
    if asks == [] then 0 else Asked(asks[..|asks| - 1], a) + if asks[|asks| - 1] == a then 1 else 0
  }

  function Passed(asks: seq<Ask>, a: Ask, maxPer: int): nat {
    if asks == [] then 0
    else
      var us, last := asks[..|asks| - 1], asks[|asks| - 1];
      Passed(us, a, maxPer)
      + if last == a && CountSignal(CountsAfter(us, maxPer), a.symbol, a.day, maxPer).1 then 1 else 0
  }

  ghost predicate InOrder(asks: seq<Ask>) {
    forall i, j :: 0 <= i < j < |asks| ==> asks[i].day <= asks[j].day
  }

  function Cap(n: nat, maxPer: int): nat {
    var most: nat := if maxPer >= 1 then maxPer else 1;
    if n <= most then n else most
  }

  /** Of the n signals of one stock that reach the rule on one day, min(n, max(1, cap)) pass. */
  lemma {:induction false} PassedPerDay(asks: seq<Ask>, a: Ask, maxPer: int)
    requires InOrder(asks)
    ensures Passed(asks, a, maxPer) == Cap(Asked(asks, a), maxPer)
    ensures var counts := CountsAfter(asks, maxPer);
            && (asks != [] && asks[|asks| - 1].day < a.day ==> Asked(asks, a) == 0)
            && (Asked(asks, a) == 0 && (asks == [] || asks[|asks| - 1].day <= a.day) ==>
                  a.symbol !in counts || counts[a.symbol].day < a.day)
            && (Asked(asks, a) > 0 && (asks == [] || asks[|asks| - 1].day <= a.day) ==>
                  a.symbol in counts && counts[a.symbol] == Count(a.day, Passed(asks, a, maxPer)))
  {
    if asks != [] {
      var us, last := asks[..|asks| - 1], asks[|asks| - 1];
      PassedPerDay(us, a, maxPer);
      if us != [] { assert us[|us| - 1].day <= last.day; }
    }
  }

  /** The rows of all days, as the rule leaves them. */
  type Rows = map<nat, map<string, nat>>

  function RowOf(rows: Rows, day: nat): map<string, nat> { if day in rows then rows[day] else map[] }

  /** The entry of one symbol and day in the rows, if there is one. */
  function EntryOf(rows: Rows, a: Ask): Option<nat> {
    var row := RowOf(rows, a.day);
    if a.symbol in row then Some(row[a.symbol]) else None
  }

  function Written(rows: Rows, counts: Counts, b: Ask, maxPer: int): Rows {
    rows[b.day := WrittenBack(RowOf(rows, b.day), counts, b.symbol, b.day, maxPer)]
  }

  /** A signal that passes writes its own entry, and no signal writes another. */
  lemma WritesOwnEntry(rows: Rows, counts: Counts, b: Ask, maxPer: int, a: Ask)
    ensures var (after, pass) := CountSignal(counts, b.symbol, b.day, maxPer);
            EntryOf(Written(rows, counts, b, maxPer), a)
            == if b == a && pass then Some(after[b.symbol].passed) else EntryOf(rows, a)
  {
  }

  function RowsAfter(asks: seq<Ask>, maxPer: int): Rows {
    if asks == [] then map[]
    else
      var us, a := asks[..|asks| - 1], asks[|asks| - 1];
      Written(RowsAfter(us, maxPer), CountsAfter(us, maxPer), a, maxPer)
  }

  /** While one engine writes it, the row of a day holds, for every symbol, how many of its signals passed that day,
      so that a restart could read the counts back. */
  lemma {:induction false} RowsHoldPassed(asks: seq<Ask>, a: Ask, maxPer: int)
    requires InOrder(asks)
    ensures EntryOf(RowsAfter(asks, maxPer), a)
            == if Passed(asks, a, maxPer) > 0 then Some(Passed(asks, a, maxPer)) else None
  {
    if asks != [] {
      var us, last := asks[..|asks| - 1], asks[|asks| - 1];
      RowsHoldPassed(us, a, maxPer);
      PassedPerDay(asks, last, maxPer);
      PassedPerDay(us, last, maxPer);
      WritesOwnEntry(RowsAfter(us, maxPer), CountsAfter(us, maxPer), last, maxPer, a);
    }
  }

  // ---------------------------------------------------------------- several workers, one row

  /** Every worker has an engine of its own, with counts of its own; they write to the same rows. */
  datatype WorkerAsk = WorkerAsk(worker: nat, ask: Ask)

  function Own(asks: seq<WorkerAsk>, worker: nat): seq<Ask> {
    if asks == [] then []
    else
      var us, x := asks[..|asks| - 1], asks[|asks| - 1];
      Own(us, worker) + if x.worker == worker then [x.ask] else []
  }

  predicate PassesNext(asks: seq<Ask>, a: Ask, maxPer: int) {
    CountSignal(CountsAfter(asks, maxPer), a.symbol, a.day, maxPer).1
  }

  function SharedRows(asks: seq<WorkerAsk>, maxPer: int): Rows {
    if asks == [] then map[]
    else
      var us, x := asks[..|asks| - 1], asks[|asks| - 1];
      Written(SharedRows(us, maxPer), CountsAfter(Own(us, x.worker), maxPer), x.ask, maxPer)
  }

  /** The worker at which a signal of this stock last passed on this day. */
  function LastWriter(asks: seq<WorkerAsk>, a: Ask, maxPer: int): Option<nat> {
    if asks == [] then None
    else
      var us, x := asks[..|asks| - 1], asks[|asks| - 1];
      if x.ask == a && PassesNext(Own(us, x.worker), a, maxPer) then Some(x.worker) else LastWriter(us, a, maxPer)
  }

  lemma {:induction false} OwnSnoc(asks: seq<Ask>, a: Ask, maxPer: int)
    requires InOrder(asks + [a])
    ensures var (counts, pass) := CountSignal(CountsAfter(asks, maxPer), a.symbol, a.day, maxPer);
            && CountsAfter(asks + [a], maxPer) == counts
            && (pass ==> counts[a.symbol].passed == Passed(asks + [a], a, maxPer))
    ensures forall b :: Passed(asks + [a], b, maxPer)
                        == Passed(asks, b, maxPer) + if b == a && PassesNext(asks, a, maxPer) then 1 else 0
  {
    assert (asks + [a])[..|asks|] == asks;
    PassedPerDay(asks + [a], a, maxPer);
  }

  /** The row holds what passed at one worker, or there is none. */
  predicate HoldsAt(asks: seq<WorkerAsk>, a: Ask, maxPer: int, worker: Option<nat>) {
    EntryOf(SharedRows(asks, maxPer), a)
    == if worker.Some? then Some(Passed(Own(asks, worker.value), a, maxPer)) else None
  }

  lemma OwnInOrder(asks: seq<WorkerAsk>, worker: nat)
    requires asks != [] && InOrder(Own(asks, worker))
    ensures InOrder(Own(asks[..|asks| - 1], worker))
  {
    var own, before := Own(asks, worker), Own(asks[..|asks| - 1], worker);
    assert forall i :: 0 <= i < |before| ==> before[i] == own[i];
  }

  lemma {:induction false} HoldsStep(asks: seq<WorkerAsk>, a: Ask, maxPer: int, worker: Option<nat>)
    requires asks != [] && InOrder(Own(asks, asks[|asks| - 1].worker))
    requires HoldsAt(asks[..|asks| - 1], a, maxPer, worker)
    ensures var us, x := asks[..|asks| - 1], asks[|asks| - 1];
            HoldsAt(asks, a, maxPer,
                    if x.ask == a && PassesNext(Own(us, x.worker), a, maxPer) then Some(x.worker) else worker)
  {
    var us, x := asks[..|asks| - 1], asks[|asks| - 1];
    var own := Own(us, x.worker);
    assert Own(asks, x.worker) == own + [x.ask];
    OwnSnoc(own, x.ask, maxPer);
    WritesOwnEntry(SharedRows(us, maxPer), CountsAfter(own, maxPer), x.ask, maxPer, a);
    if worker.Some? && worker.value != x.worker {
      assert Own(asks, worker.value) == Own(us, worker.value);
    }
  }

  /** With several workers the row holds what passed at the worker that wrote last, not the sum over the workers. */
  lemma {:induction false} SharedRowIsLastWriters(asks: seq<WorkerAsk>, a: Ask, maxPer: int)
    requires forall w :: InOrder(Own(asks, w))
    ensures HoldsAt(asks, a, maxPer, LastWriter(asks, a, maxPer))
  {
    if asks != [] {
      var us := asks[..|asks| - 1];
      forall w ensures InOrder(Own(us, w)) { OwnInOrder(asks, w); }
      SharedRowIsLastWriters(us, a, maxPer);
      HoldsStep(asks, a, maxPer, LastWriter(us, a, maxPer));
    }
  }
}
