/** What the paper account's operations answer, told in terms of prices, quantities and rows: which trades open and
    close, at what price and result, and where a trailed stop ends up. */
module PaperResults {
  import opened Common
  import opened PaperLedger

  // ---------------------------------------------------------------- money

  /** The value of the open trades at their entry prices. */
  ghost function OpenValue(rows: seq<Row>): real {
    if rows == [] then 0.0
    else
      var r := rows[|rows| - 1];
      OpenValue(rows[..|rows| - 1]) + if r.open then r.quantity as real * r.entry else 0.0
  }

  ghost predicate IsFifth(part: real, whole: real) { part * 5.0 == whole }

  lemma AddFifths(a: real, b: real, c: real, d: real)
    requires IsFifth(a, b) && IsFifth(c, d)
    ensures IsFifth(a + c, b + d)
  {
  }

  lemma MarginIsFifth(quantity: int, entry: real)
    ensures IsFifth(Margin(quantity, entry), quantity as real * entry)
  {
  }

  lemma {:induction false} LockedIsFifth(rows: seq<Row>)
    ensures IsFifth(Locked(rows), OpenValue(rows))
  {
    if rows != [] {
      var r := rows[|rows| - 1];
      LockedIsFifth(rows[..|rows| - 1]);
      if r.open {
        MarginIsFifth(r.quantity, r.entry);
        AddFifths(Locked(rows[..|rows| - 1]), OpenValue(rows[..|rows| - 1]),
                  Margin(r.quantity, r.entry), r.quantity as real * r.entry);
      }
    }
  }

  /** Over any run of reversals, entries, worker entries and monitor passes, balance plus a fifth of the value of the
      open trades is the initial balance plus every realised result. */
  lemma {:induction false} BalanceOverRuns(initial: real, es: seq<Step>)
    ensures var a := Run(Some(initial), es);
            a.balance.Some? && IsFifth(initial + Realised(a.rows) - a.balance.value, OpenValue(a.rows))
  {
    MoneyIsConserved(initial, es);
    LockedIsFifth(Run(Some(initial), es).rows);
  }

  /** The result is the quantity times the move from entry to exit, downwards for a SELL. */
  ghost predicate Earns(r: Row, exit: real, pnl: real) {
    pnl == r.quantity as real * (if r.direction.Buy? then exit - r.entry else r.entry - exit)
  }

  lemma GrossEarns(r: Row, exit: real)
    ensures Earns(r, exit, Gross(r, exit))
  {
  }

  /** The same less 40 and 0.05 % of the entry value. */
  ghost predicate EarnsNet(r: Row, exit: real, pnl: real) {
    Earns(r, exit, pnl + (40.0 + r.quantity as real * r.entry * 0.0005))
  }

  lemma NetEarns(r: Row, exit: real)
    ensures EarnsNet(r, exit, Gross(r, exit) - ExitCost(r))
  {
    GrossEarns(r, exit);
  }

  // ---------------------------------------------------------------- the monitor

  /** Where the stop moves at this price: one risk unit behind it, once the price is more than one unit beyond the
      entry and while the stop lies behind the entry. */
  ghost function StopAt(r: Row, ltp: real): real {
    if r.direction.Buy?
    then if r.stop < r.entry && ltp > r.entry + (r.entry - r.stop) then ltp - (r.entry - r.stop) else r.stop
    else if r.stop > r.entry && ltp < r.entry - (r.stop - r.entry) then ltp + (r.stop - r.entry) else r.stop
  }

  ghost predicate Between(r: Row, stop: real, ltp: real) {
    if r.direction.Buy? then stop < ltp < r.target else r.target < ltp < stop
  }

  /** Row r becomes w when the monitor sees this price: unchanged when closed or without a price; otherwise it stays
      open exactly while the price is strictly between its stop, moved first, and its target, and closes at the price
      for the gross result. At the end of the day it closes, its stop where it was. */
  ghost predicate Sees(r: Row, w: Row, ltp: Option<real>, eod: bool) {
    if !r.open || ltp.None? then w == r
    else
      var p, stop := ltp.value, if eod then r.stop else StopAt(r, ltp.value);
      if !eod && Between(r, stop, p) then w == r.(stop := stop)
      else w == r.(stop := stop, open := false, exit := Some(p), pnl := w.pnl) && Earns(r, p, w.pnl)
  }

  lemma TrailsTo(r: Row, ltp: real)
    ensures Trail(r, ltp) == r.(stop := StopAt(r, ltp))
  {
  }

  lemma WatchedSees(r: Row, ltp: Option<real>, eod: bool)
    ensures Sees(r, Watched(r, ltp, eod), ltp, eod)
  {
    if ltp.Some? {
      TrailsTo(r, ltp.value);
      GrossEarns(r, ltp.value);
      GrossEarns(r.(stop := StopAt(r, ltp.value)), ltp.value);
    }
  }

  lemma {:induction false} MonitorSees(a: Account, prices: map<string, real>, eod: bool, n: nat, k: nat)
    requires n <= |a.rows| && k < |a.rows|
    ensures var w, r := Monitor(a, prices, eod, n).rows[k], a.rows[k];
            if k < n then w == Watched(r, Price(prices, r.symbol), eod) else w == r
  {
    if n > 0 { MonitorSees(a, prices, eod, n - 1, k); }
  }

  /** One pass of the monitor sees every trade once, each at the last price of its own symbol. */
  lemma {:induction false} PassSeesEvery(a: Account, prices: map<string, real>, eod: bool, k: nat)
    requires k < |a.rows|
    ensures var b := Next(a, Watch(prices, eod));
            |b.rows| == |a.rows| && Sees(a.rows[k], b.rows[k], Price(prices, a.rows[k].symbol), eod)
  {
    MonitorSees(a, prices, eod, |a.rows|, k);
    WatchedSees(a.rows[k], Price(prices, a.rows[k].symbol), eod);
  }

  // ---------------------------------------------------------------- reversals and entries

  /** What one row of the account is to a signal on this symbol. */
  ghost predicate Reverses(r: Row, symbol: string, signal: Direction) {
    r.open && r.symbol == symbol && r.direction != signal
  }

  /** A signal closes the open trade of its symbol in the other direction, at the signal's price and net of the
      estimated cost, whenever there is one and the price is positive. */
  lemma {:induction false} ReversesIff(a: Account, route: Route, symbol: string, signal: Direction, exit: real, k: nat)
    requires Unique(a.rows) && k < |a.rows|
    ensures var (b, res) := Close(a, route, symbol, signal, exit);
            && |b.rows| == |a.rows|
            && (res.Done? <==> exit > 0.0 && exists i :: 0 <= i < |a.rows| && Reverses(a.rows[i], symbol, signal))
            && if exit > 0.0 && Reverses(a.rows[k], symbol, signal)
               then b.rows[k] == a.rows[k].(open := false, exit := Some(exit), pnl := b.rows[k].pnl)
                    && EarnsNet(a.rows[k], exit, b.rows[k].pnl)
               else b.rows[k] == a.rows[k]
  {
    var d := Some(Opposite(signal));
    FoundIsMatch(a.rows, symbol, d);
    forall i | 0 <= i < |a.rows| ensures Matches(a.rows[i], symbol, d) <==> Reverses(a.rows[i], symbol, signal) {}
    NetEarns(a.rows[k], exit);
  }

  /** The margin, a fifth of the value, fits the balance; an account without one is not checked. */
  ghost predicate Affords(a: Account, quantity: int, entry: real) {
    a.balance.Some? ==> quantity as real * entry <= a.balance.value * 5.0
  }

  /** The trade is added with this quantity and a fifth of its value leaves the balance. */
  ghost predicate Enters(a: Account, b: Account, symbol: string, d: Direction, quantity: int, entry: real, stop: real,
                         target: real)
  {
    && b.rows == a.rows + [Row(symbol, d, quantity, entry, stop, target, true, None, 0.0)]
    && (a.balance.None? <==> b.balance.None?)
    && (a.balance.Some? ==> IsFifth(a.balance.value - b.balance.value, quantity as real * entry))
  }

  lemma {:induction false} EntersIff(a: Account, symbol: string, d: Direction, quantity: int, entry: real, stop: real,
                                     target: real)
    ensures var (b, res) := Enter(a, NewRow(symbol, d, quantity, entry, stop, target));
            if Affords(a, quantity, entry) then res.Done? && Enters(a, b, symbol, d, quantity, entry, stop, target)
            else res.Skipped? && b == a
  {
    MarginIsFifth(quantity, entry);
  }

  /** A batch entry succeeds exactly in paper mode, at a positive price, for at least one share, when no open trade of
      the symbol exists in either direction and the balance affords the margin; otherwise nothing changes. */
  lemma {:induction false} OpensIff(a: Account, route: Route, symbol: string, signal: Direction, quantity: int,
                                    entry: real, stop: real, target: real)
    ensures var (b, res) := Open(a, route, symbol, signal, quantity, entry, stop, target);
            if && route.Paper? && entry > 0.0 && quantity >= 1 && Affords(a, quantity, entry)
               && forall i :: 0 <= i < |a.rows| ==> !(a.rows[i].open && a.rows[i].symbol == symbol)
            then res.Done? && Enters(a, b, symbol, signal, quantity, entry, stop, target)
            else !res.Done? && b == a
  {
    FoundIsMatch(a.rows, symbol, None);
    forall i | 0 <= i < |a.rows|
      ensures Matches(a.rows[i], symbol, None) <==> a.rows[i].open && a.rows[i].symbol == symbol {}
    EntersIff(a, symbol, signal, quantity, entry, stop, target);
  }

  /** Where the open trades stand. */
  ghost function OpenPlaces(rows: seq<Row>): set<nat> {
    set k: nat | k < |rows| && rows[k].open
  }

  lemma {:induction false} CountIsPlaces(rows: seq<Row>)
    ensures CountOpen(rows) == |OpenPlaces(rows)|
  {
    if rows != [] {
      var n := |rows| - 1;
      CountIsPlaces(rows[..n]);
      assert OpenPlaces(rows) == OpenPlaces(rows[..n]) + if rows[n].open then {n} else {};
    }
  }

  /** The largest number of shares the capital buys. */
  ghost predicate Buys(n: int, entry: real, capital: real) {
    n as real * entry <= capital < (n + 1) as real * entry
  }

  lemma FloorBuys(entry: real, capital: real)
    requires entry > 0.0
    ensures Buys((capital / entry).Floor, entry, capital)
  {
    var shares := capital / entry;
    var n := shares.Floor;
    assert shares * entry == capital;
    Scales(n as real, shares, entry);
    Scales(shares, (n + 1) as real, entry);
  }

  lemma FewerBuy(n: int, entry: real, capital: real)
    requires entry > 0.0 && Buys(n, entry, capital)
    ensures n >= 1 <==> entry <= capital
  {
    if n >= 1 { Scales(1.0, n as real, entry); } else { Scales((n + 1) as real, 1.0, entry); }
  }

  /** The worker's quantity: the given one when positive, else what the capital buys, but at least one share. */
  ghost predicate WorkersQuantity(n: int, quantity: int, entry: real, capital: real) {
    if quantity > 0 then n == quantity else if entry <= capital then Buys(n, entry, capital) else n == 1
  }

  lemma WorkerQuantityIs(quantity: int, entry: real, capital: real)
    requires entry > 0.0
    ensures WorkersQuantity(WorkerQuantity(quantity, entry, capital), quantity, entry, capital)
  {
    FloorBuys(entry, capital);
    FewerBuy((capital / entry).Floor, entry, capital);
  }

  /** A worker's entry succeeds exactly at a positive price with a free slot, when no open trade has the symbol and the
      direction and the balance affords the margin; otherwise nothing changes. */
  lemma {:induction false} WorkerOpensIff(a: Account, symbol: string, signal: Direction, quantity: int, entry: real,
                                          stop: real, target: real, capital: real, live: nat, maxOpen: int)
    returns (n: int)
    ensures entry > 0.0 ==> WorkersQuantity(n, quantity, entry, capital)
    ensures var (b, res) := WorkerOpen(a, symbol, signal, quantity, entry, stop, target, capital, live, maxOpen);
            if && entry > 0.0 && |OpenPlaces(a.rows)| + live < maxOpen && Affords(a, n, entry)
               && forall i :: 0 <= i < |a.rows| ==>
                    !(a.rows[i].open && a.rows[i].symbol == symbol && a.rows[i].direction == signal)
            then res.Done? && Enters(a, b, symbol, signal, n, entry, stop, target)
            else res.Skipped? && b == a
  {
    n := if entry > 0.0 then WorkerQuantity(quantity, entry, capital) else 0;
    if entry > 0.0 { WorkerQuantityIs(quantity, entry, capital); }
    CountIsPlaces(a.rows);
    FoundIsMatch(a.rows, symbol, Some(signal));
    forall i | 0 <= i < |a.rows|
      ensures Matches(a.rows[i], symbol, Some(signal))
              <==> a.rows[i].open && a.rows[i].symbol == symbol && a.rows[i].direction == signal {}
    EntersIff(a, symbol, signal, n, entry, stop, target);
  }

  // ---------------------------------------------------------------- items of a batch

  /** The batch's quantity: a fixed one, or what the capital buys. */
  ghost predicate BatchQuantity(n: int, sizing: Sizing, entry: real) {
    match sizing
    case Fixed(quantity) => n == quantity
    case ByCapital(capital) => if entry > 0.0 then Buys(n, entry, capital) else n == 0
  }

  lemma CalcQuantityIs(sizing: Sizing, entry: real)
    ensures BatchQuantity(CalcQuantity(sizing, entry), sizing, entry)
  {
    if sizing.ByCapital? && entry > 0.0 { FloorBuys(entry, sizing.capital); }
  }

  /** After the reversal, everything an entry asks for: a slot by the batch's own count, the lock, a slot by a fresh
      count, no execution of the same signal within the hour, and what every entry asks for. */
  ghost predicate MayEnter(c: Config, b: Batch, item: Item, signal: Direction, n: int) {
    && b.slots > 0 && item.locked && |OpenPlaces(b.account.rows)| + c.live < c.maxOpen
    && !(Key(item.symbol, signal, item.entry) in b.executed
         && item.at < b.executed[Key(item.symbol, signal, item.entry)])
    && c.route.Paper? && item.entry > 0.0 && n >= 1 && Affords(b.account, n, item.entry)
    && forall i :: 0 <= i < |b.account.rows| ==>
         !(b.account.rows[i].open && b.account.rows[i].symbol == item.symbol)
  }

  /** An entry takes a slot and remembers its signal for an hour. */
  lemma {:induction false} TriesIff(c: Config, b: Batch, item: Item, signal: Direction) returns (n: int)
    requires !b.raised
    ensures BatchQuantity(n, c.sizing, item.entry)
    ensures var t := TryOpen(c, b, item, signal);
            if MayEnter(c, b, item, signal, n)
            then && Enters(b.account, t.account, item.symbol, signal, n, item.entry, item.stop, item.target)
                 && t.slots == b.slots - 1 && !t.raised
                 && t.executed == b.executed[Key(item.symbol, signal, item.entry) := item.at + 3_600_000]
            else t.account == b.account && t.slots == b.slots && t.executed == b.executed
  {
    n := CalcQuantity(c.sizing, item.entry);
    CalcQuantityIs(c.sizing, item.entry);
    CountIsPlaces(b.account.rows);
    OpensIff(b.account, c.route, item.symbol, signal, n, item.entry, item.stop, item.target);
  }

  /** An item without a signal does nothing; any other first reverses, which frees a slot, and then enters if it may. */
  lemma {:induction false} ItemIs(c: Config, b: Batch, item: Item)
    requires !b.raised && Unique(b.account.rows)
    ensures var t := OnItem(c, b, item);
            if item.signal.None? then t == b
            else
              var (a, res) := Close(b.account, c.route, item.symbol, item.signal.value, item.entry);
              !res.Raised?
              && t == TryOpen(c, b.(account := a, slots := b.slots + if res.Done? then 1 else 0), item,
                              item.signal.value)
  {
    if item.signal.Some? { FoundIsMatch(b.account.rows, item.symbol, Some(Opposite(item.signal.value))); }
  }

  // ---------------------------------------------------------------- a stop trails once

  /** The stop lies beyond the entry, on the side of profit. */
  ghost predicate LocksProfit(r: Row) { if r.direction.Buy? then r.stop > r.entry else r.stop < r.entry }

  /** The same trade later on: a stop that has moved locks a profit, and one that locks a profit stays. */
  ghost predicate LaterRow(r: Row, w: Row) {
    && w == r.(stop := w.stop, open := w.open, exit := w.exit, pnl := w.pnl)
    && (w.stop != r.stop ==> LocksProfit(w) && !LocksProfit(r))
  }

  ghost predicate LaterRows(a: Account, b: Account) {
    |a.rows| <= |b.rows| && forall k :: 0 <= k < |a.rows| ==> LaterRow(a.rows[k], b.rows[k])
  }

  lemma SeenIsLater(r: Row, w: Row, ltp: Option<real>, eod: bool)
    requires Sees(r, w, ltp, eod)
    ensures LaterRow(r, w)
  {
  }

  lemma LaterTwice(a: Account, b: Account, c: Account)
    requires LaterRows(a, b) && LaterRows(b, c)
    ensures LaterRows(a, c)
  {
    forall k | 0 <= k < |a.rows| ensures LaterRow(a.rows[k], c.rows[k]) {
      assert LaterRow(a.rows[k], b.rows[k]) && LaterRow(b.rows[k], c.rows[k]);
    }
  }

  lemma {:induction false} StepIsLater(a: Account, e: Step)
    requires Unique(a.rows)
    ensures LaterRows(a, Next(a, e))
  {
    match e
    case Reverse(symbol, signal, exit) =>
      forall k: nat | k < |a.rows| ensures |Next(a, e).rows| == |a.rows| && LaterRow(a.rows[k], Next(a, e).rows[k]) {
        ReversesIff(a, Paper, symbol, signal, exit, k);
      }
      FoundIsMatch(a.rows, symbol, Some(Opposite(signal)));
    case Entry(symbol, signal, quantity, entry, stop, target) =>
      OpensIff(a, Paper, symbol, signal, quantity, entry, stop, target);
    case Worker(symbol, signal, quantity, entry, stop, target, capital, live, maxOpen) =>
      var _ := WorkerOpensIff(a, symbol, signal, quantity, entry, stop, target, capital, live, maxOpen);
    case Watch(prices, eod) =>
      forall k: nat | k < |a.rows| ensures LaterRow(a.rows[k], Next(a, e).rows[k]) {
        PassSeesEvery(a, prices, eod, k);
        SeenIsLater(a.rows[k], Next(a, e).rows[k], Price(prices, a.rows[k].symbol), eod);
      }
  }

  lemma OneStepLater(a: Account, b: Account, e: Step) returns (c: Account)
    requires LaterRows(a, b) && Unique(b.rows)
    ensures c == Next(b, e) && LaterRows(a, c)
  {
    c := Next(b, e);
    StepIsLater(b, e);
    LaterTwice(a, b, c);
  }

  lemma {:induction false} RunNext(initial: real, es: seq<Step>, e: Step)
    ensures Run(Some(initial), es + [e]) == Next(Run(Some(initial), es), e) && Unique(Run(Some(initial), es).rows)
  {
    assert (es + [e])[..|es|] == es;
    RunKeeps(initial, es);
  }

  lemma {:induction false} RunIsLater(initial: real, es: seq<Step>, more: seq<Step>) returns (a: Account, b: Account)
    ensures a == Run(Some(initial), es) && b == Run(Some(initial), es + more) && LaterRows(a, b)
  {
    if more == [] {
      assert es + more == es;
      a := Run(Some(initial), es);
      b := a;
    } else {
      var us, e := more[..|more| - 1], more[|more| - 1];
      var before;
      a, before := RunIsLater(initial, es, us);
      RunNext(initial, es + us, e);
      assert es + more == es + us + [e];
      b := OneStepLater(a, before, e);
    }
  }

  /** A trade's stop trails at most once: after the first move the stop lies beyond the entry, so that no risk unit is
      left to trail by, and it never moves again however far the price runs. */
  lemma {:induction false} TrailsAtMostOnce(initial: real, es: seq<Step>, more: seq<Step>, rest: seq<Step>, k: nat)
    requires k < |Run(Some(initial), es).rows|
    ensures k < |Run(Some(initial), es + more).rows| && k < |Run(Some(initial), es + more + rest).rows|
    ensures Run(Some(initial), es + more).rows[k].stop != Run(Some(initial), es).rows[k].stop ==>
              Run(Some(initial), es + more + rest).rows[k].stop == Run(Some(initial), es + more).rows[k].stop
  {
    var a, b := RunIsLater(initial, es, more);
    var b', c := RunIsLater(initial, es + more, rest);
    assert LaterRow(a.rows[k], b.rows[k]) && LaterRow(b.rows[k], c.rows[k]);
  }
}
