/** The paper account as values: its balance, its trades, and the four operations that open, reverse and close
    them, each on the route the trading mode gives (paper, or disabled). */
module PaperLedger {
  import opened Common

  datatype Direction = Buy | Sell

  datatype Route = Paper | Disabled

  datatype Row = Row(symbol: string, direction: Direction, quantity: int, entry: real, stop: real, target: real,
                     open: bool, exit: Option<real>, pnl: real)

  /** The balance is missing when no risk configuration exists. */
  datatype Account = Account(balance: Option<real>, rows: seq<Row>)

  /** A query for at most one row: several matches raise. */
  datatype Lookup = Missing | Found(k: nat) | Several

  datatype Result = Done | Skipped | Raised

  function Opposite(d: Direction): Direction { if d.Buy? then Sell else Buy }

  /** One fifth of the position's value. */
  function Margin(quantity: int, entry: real): real { Worth(quantity, entry) / 5.0 }

  function Gross(r: Row, exit: real): real {
    Worth(r.quantity, if r.direction.Buy? then exit - r.entry else r.entry - exit)
  }

  /** Estimated slippage and fees of a reversal. */
  function ExitCost(r: Row): real { 40.0 + Worth(r.quantity, r.entry) * 0.0005 }

  predicate Matches(r: Row, symbol: string, d: Option<Direction>) {
    r.open && r.symbol == symbol && (d.Some? ==> r.direction == d.value)
  }

  function Find(rows: seq<Row>, symbol: string, d: Option<Direction>): Lookup {
    if rows == [] then Missing
    else
      var n := |rows| - 1;
      var before := Find(rows[..n], symbol, d);
      if !Matches(rows[n], symbol, d) then before else if before.Missing? then Found(n) else Several
  }

  // ---------------------------------------------------------------- operations

  function Credit(balance: Option<real>, amount: real): Option<real> {
    if balance.None? then None else Some(balance.value + amount)
  }

  function ClosedRow(r: Row, exit: real, pnl: real): Row { r.(open := false, exit := Some(exit), pnl := pnl) }

  function NewRow(symbol: string, d: Direction, quantity: int, entry: real, stop: real, target: real): Row {
    Row(symbol, d, quantity, entry, stop, target, true, None, 0.0)
  }

  /** Trade k closed at a price, net of cost. With the mode disabled nothing is credited. */
  function Reversed(a: Account, route: Route, k: nat, exit: real): Account
    requires k < |a.rows|
  {
    var r := a.rows[k];
    var pnl := Gross(r, exit) - ExitCost(r);
    Account(if route.Paper? then Credit(a.balance, Margin(r.quantity, r.entry) + pnl) else a.balance,
            a.rows[k := ClosedRow(r, exit, pnl)])
  }

  /** A reversal: a signal closes the open position of the opposite direction. */
  function Close(a: Account, route: Route, symbol: string, signal: Direction, exit: real): (Account, Result) {
    match Find(a.rows, symbol, Some(Opposite(signal)))
    case Several => (a, Raised)
    case Missing => (a, Skipped)
    case Found(k) =>
      FoundIsMatch(a.rows, symbol, Some(Opposite(signal)));
      if exit <= 0.0 then (a, Skipped) else (Reversed(a, route, k, exit), Done)
  }

  /** An entry after all checks: enough balance, or no configuration to check. */
  function Enter(a: Account, r: Row): (Account, Result) {
    var margin := Margin(r.quantity, r.entry);
    if a.balance.Some? && a.balance.value < margin then (a, Skipped)
    else (Account(Credit(a.balance, -margin), a.rows + [r]), Done)
  }

  /** An entry by the batch: one position a symbol, in either direction. */
  function Open(a: Account, route: Route, symbol: string, signal: Direction, quantity: int, entry: real, stop: real,
                target: real): (Account, Result)
  {
    if route.Disabled? || entry <= 0.0 || quantity < 1 then (a, Skipped)
    else match Find(a.rows, symbol, None)
      case Several => (a, Raised)
      case Found(_) => (a, Skipped)
      case Missing => Enter(a, NewRow(symbol, signal, quantity, entry, stop, target))
  }

  function CountOpen(rows: seq<Row>): nat {
    if rows == [] then 0 else CountOpen(rows[..|rows| - 1]) + if rows[|rows| - 1].open then 1 else 0
  }

  /** An entry by the worker: a free slot, and one position a symbol and direction. A quantity the risk engine
      did not give comes from the capital per trade. */
  function WorkerOpen(a: Account, symbol: string, signal: Direction, quantity: int, entry: real,
                      stop: real, target: real,
                      capital: real, live: nat, maxOpen: int): (Account, Result)
  {
    if entry <= 0.0 || CountOpen(a.rows) + live >= maxOpen then (a, Skipped)
    else if Find(a.rows, symbol, Some(signal)) != Missing then (a, Skipped)
    else Enter(a, NewRow(symbol, signal, WorkerQuantity(quantity, entry, capital), entry, stop, target))
  }

  function WorkerQuantity(quantity: int, entry: real, capital: real): int
    requires entry > 0.0
  {
    if quantity > 0 then quantity
    else var n := (capital / entry).Floor; if n >= 1 then n else 1
  }

  // ---- the monitor

  function Trail(r: Row, ltp: real): Row {
    match r.direction
    case Buy =>
      var unit := r.entry - r.stop;
      if unit > 0.0 && ltp > r.entry + unit && ltp - unit > r.stop then r.(stop := ltp - unit) else r
    case Sell =>
      var unit := r.stop - r.entry;
      if unit > 0.0 && ltp < r.entry - unit && ltp + unit < r.stop then r.(stop := ltp + unit) else r
  }

  predicate HitsExit(r: Row, ltp: real) {
    if r.direction.Buy? then ltp <= r.stop || ltp >= r.target else ltp >= r.stop || ltp <= r.target
  }

  /** One row against the last price: trail, then close at that price, gross; at the end of the day close
      without trailing. */
  function Watched(r: Row, ltp: Option<real>, eod: bool): Row {
    if !r.open || ltp.None? then r
    else
      var t := if eod then r else Trail(r, ltp.value);
      if eod || HitsExit(t, ltp.value) then ClosedRow(t, ltp.value, Gross(t, ltp.value)) else t
  }

  function Price(prices: map<string, real>, symbol: string): Option<real> {
    if symbol in prices then Some(prices[symbol]) else None
  }

  /** Trade k watched, and settled when that closes it. */
  function WatchAt(a: Account, k: nat, prices: map<string, real>, eod: bool): Account
    requires k < |a.rows|
  {
    var r := a.rows[k];
    var w := Watched(r, Price(prices, r.symbol), eod);
    Account(if r.open && !w.open then Credit(a.balance, Margin(r.quantity, r.entry) + w.pnl) else a.balance,
            a.rows[k := w])
  }

  /** The first n trades watched, in order. */
  function Monitor(a: Account, prices: map<string, real>, eod: bool, n: nat): (r: Account)
    requires n <= |a.rows|
    ensures |r.rows| == |a.rows|
  {
    if n == 0 then a else WatchAt(Monitor(a, prices, eod, n - 1), n - 1, prices, eod)
  }

  // ---------------------------------------------------------------- lookup

  lemma {:induction false} FoundIsMatch(rows: seq<Row>, symbol: string, d: Option<Direction>)
    ensures var f := Find(rows, symbol, d);
            && (f.Found? ==> f.k < |rows| && Matches(rows[f.k], symbol, d)
                             && forall i :: 0 <= i < |rows| && i != f.k ==> !Matches(rows[i], symbol, d))
            && (f.Missing? <==> forall i :: 0 <= i < |rows| ==> !Matches(rows[i], symbol, d))
            && (f.Several? <==>
                exists i, j :: 0 <= i < j < |rows| && Matches(rows[i], symbol, d) && Matches(rows[j], symbol, d))
  {
    if rows != [] {
      var n := |rows| - 1;
      FoundIsMatch(rows[..n], symbol, d);
      var before := Find(rows[..n], symbol, d);
      if before.Several? {
        var i, j :| 0 <= i < j < n && Matches(rows[..n][i], symbol, d) && Matches(rows[..n][j], symbol, d);
        assert Matches(rows[i], symbol, d) && Matches(rows[j], symbol, d);
      } else if before.Found? && Matches(rows[n], symbol, d) {
        assert Matches(rows[before.k], symbol, d);
      }
    }
  }

  // ---------------------------------------------------------------- conservation

  function Locked(rows: seq<Row>): real {
    if rows == [] then 0.0
    else
      var r := rows[|rows| - 1];
      Locked(rows[..|rows| - 1]) + if r.open then Margin(r.quantity, r.entry) else 0.0
  }

  function Realised(rows: seq<Row>): real {
    if rows == [] then 0.0 else Realised(rows[..|rows| - 1]) + rows[|rows| - 1].pnl
  }

  /** Balance plus locked margin is the initial balance plus all realised results. */
  ghost predicate Conserved(a: Account, initial: real) {
    a.balance.Some? ==> a.balance.value + Locked(a.rows) == initial + Realised(a.rows)
  }

  lemma {:induction false} SumsUpdate(rows: seq<Row>, k: nat, r: Row)
    requires k < |rows|
    ensures Realised(rows[k := r]) == Realised(rows) - rows[k].pnl + r.pnl
    ensures Locked(rows[k := r]) == Locked(rows)
                                    - (if rows[k].open then Margin(rows[k].quantity, rows[k].entry) else 0.0)
                                    + (if r.open then Margin(r.quantity, r.entry) else 0.0)
    ensures CountOpen(rows[k := r]) == CountOpen(rows) - (if rows[k].open then 1 else 0) + (if r.open then 1 else 0)
  {
    var n := |rows| - 1;
    if k == n {
      assert rows[k := r][..n] == rows[..n];
    } else {
      SumsUpdate(rows[..n], k, r);
      assert rows[k := r][..n] == rows[..n][k := r];
    }
  }

  lemma SumsSnoc(rows: seq<Row>, r: Row)
    ensures Realised(rows + [r]) == Realised(rows) + r.pnl
    ensures Locked(rows + [r]) == Locked(rows) + if r.open then Margin(r.quantity, r.entry) else 0.0
    ensures CountOpen(rows + [r]) == CountOpen(rows) + if r.open then 1 else 0
  {
    assert (rows + [r])[..|rows|] == rows;
  }

  /** No two open trades share symbol and direction; an open trade has realised nothing yet. */
  ghost predicate Unique(rows: seq<Row>) {
    forall i, j :: 0 <= i < j < |rows| && rows[i].open && rows[j].open ==>
      rows[i].symbol != rows[j].symbol || rows[i].direction != rows[j].direction
  }

  ghost predicate Fresh(rows: seq<Row>) {
    forall i :: 0 <= i < |rows| && rows[i].open ==> rows[i].pnl == 0.0
  }

  ghost predicate Inv(a: Account, initial: real) {
    Conserved(a, initial) && Unique(a.rows) && Fresh(a.rows)
  }

  /** Closed trades are final. */
  ghost predicate Final(a: Account, b: Account) {
    |a.rows| <= |b.rows| && forall k :: 0 <= k < |a.rows| && !a.rows[k].open ==> b.rows[k] == a.rows[k]
  }

  lemma CloseKeeps(a: Account, symbol: string, signal: Direction, exit: real, initial: real)
    requires Inv(a, initial)
    ensures var (b, r) := Close(a, Paper, symbol, signal, exit);
            && Inv(b, initial) && Final(a, b) && !r.Raised?
            && CountOpen(b.rows) == CountOpen(a.rows) - if r.Done? then 1 else 0
  {
    var d := Some(Opposite(signal));
    FoundIsMatch(a.rows, symbol, d);
    var f := Find(a.rows, symbol, d);
    if f.Found? && exit > 0.0 {
      var r := a.rows[f.k];
      SumsUpdate(a.rows, f.k, ClosedRow(r, exit, Gross(r, exit) - ExitCost(r)));
    }
  }

  lemma EnterConserves(a: Account, r: Row, initial: real)
    requires Conserved(a, initial) && r.open && r.pnl == 0.0
    ensures Conserved(Account(Credit(a.balance, -Margin(r.quantity, r.entry)), a.rows + [r]), initial)
  {
    SumsSnoc(a.rows, r);
    if a.balance.Some? {
      MoveToMargin(a.balance.value, Locked(a.rows), initial + Realised(a.rows), Margin(r.quantity, r.entry));
    }
  }

  lemma MoveToMargin(balance: real, locked: real, sum: real, margin: real)
    requires balance + locked == sum
    ensures (balance + -margin) + (locked + margin) == sum
  {
  }

  lemma AddedIsUnique(rows: seq<Row>, r: Row)
    requires Unique(rows) && Fresh(rows) && r.pnl == 0.0
    requires forall i :: 0 <= i < |rows| ==> !Matches(rows[i], r.symbol, Some(r.direction))
    ensures Unique(rows + [r]) && Fresh(rows + [r])
  {
  }

  lemma AddedIsFinal(a: Account, balance: Option<real>, r: Row)
    ensures Final(a, Account(balance, a.rows + [r])) && Final(a, a)
  {
  }

  lemma EnterKeeps(a: Account, r: Row, initial: real)
    requires Inv(a, initial) && r.open && r.pnl == 0.0
    requires forall i :: 0 <= i < |a.rows| ==> !Matches(a.rows[i], r.symbol, Some(r.direction))
    ensures var (b, res) := Enter(a, r);
            && Inv(b, initial) && Final(a, b) && !res.Raised?
            && CountOpen(b.rows) == CountOpen(a.rows) + if res.Done? then 1 else 0
  {
    EnterConserves(a, r, initial);
    AddedIsUnique(a.rows, r);
    AddedIsFinal(a, Credit(a.balance, -Margin(r.quantity, r.entry)), r);
    SumsSnoc(a.rows, r);
  }

  lemma OpenKeeps(a: Account, route: Route, symbol: string, signal: Direction, quantity: int, entry: real, stop: real,
                  target: real, initial: real)
    requires Inv(a, initial)
    ensures var (b, r) := Open(a, route, symbol, signal, quantity, entry, stop, target);
            && Inv(b, initial) && Final(a, b)
            && CountOpen(b.rows) == CountOpen(a.rows) + if r.Done? then 1 else 0
  {
    FoundIsMatch(a.rows, symbol, None);
    if Find(a.rows, symbol, None).Missing? {
      forall i | 0 <= i < |a.rows| ensures !Matches(a.rows[i], symbol, Some(signal)) {
        assert !Matches(a.rows[i], symbol, None);
      }
      EnterKeeps(a, NewRow(symbol, signal, quantity, entry, stop, target), initial);
    }
  }

  lemma WorkerOpenKeeps(a: Account, symbol: string, signal: Direction, quantity: int, entry: real,
                        stop: real, target: real,
                        capital: real, live: nat, maxOpen: int, initial: real)
    requires Inv(a, initial)
    ensures var (b, r) := WorkerOpen(a, symbol, signal, quantity, entry, stop, target, capital, live, maxOpen);
            && Inv(b, initial) && Final(a, b) && !r.Raised?
            && CountOpen(b.rows) == CountOpen(a.rows) + (if r.Done? then 1 else 0)
            && (r.Done? ==> CountOpen(b.rows) + live <= maxOpen)
  {
    FoundIsMatch(a.rows, symbol, Some(signal));
    if entry > 0.0 && Find(a.rows, symbol, Some(signal)).Missing? {
      EnterKeeps(a, NewRow(symbol, signal, WorkerQuantity(quantity, entry, capital), entry, stop, target), initial);
    }
  }

  lemma WatchKeeps(b: Account, k: nat, prices: map<string, real>, eod: bool, initial: real) returns (c: Account)
    requires Inv(b, initial) && k < |b.rows|
    ensures c == WatchAt(b, k, prices, eod)
    ensures Inv(c, initial) && Final(b, c) && CountOpen(c.rows) <= CountOpen(b.rows)
  {
    SumsUpdate(b.rows, k, Watched(b.rows[k], Price(prices, b.rows[k].symbol), eod));
    c := WatchAt(b, k, prices, eod);
  }

  lemma FinalTwice(a: Account, b: Account, c: Account)
    requires Final(a, b) && Final(b, c)
    ensures Final(a, c)
  {
  }

  lemma {:induction false} MonitorKeeps(a: Account, prices: map<string, real>, eod: bool, n: nat, initial: real)
    returns (b: Account)
    requires Inv(a, initial) && n <= |a.rows|
    ensures b == Monitor(a, prices, eod, n)
    ensures Inv(b, initial) && Final(a, b) && CountOpen(b.rows) <= CountOpen(a.rows)
  {
    if n == 0 {
      b := a;
    } else {
      var before := MonitorKeeps(a, prices, eod, n - 1, initial);
      b := WatchKeeps(before, n - 1, prices, eod, initial);
      FinalTwice(a, before, b);
    }
  }

  // ---------------------------------------------------------------- runs

  datatype Step =
    | Reverse(symbol: string, signal: Direction, exit: real)
    | Entry(symbol: string, signal: Direction, quantity: int, entry: real, stop: real, target: real)
    | Worker(symbol: string, signal: Direction, quantity: int, entry: real, stop: real, target: real,
             capital: real, live: nat, maxOpen: int)
    | Watch(prices: map<string, real>, eod: bool)

  function Next(a: Account, e: Step): Account {
    match e
    case Reverse(symbol, signal, exit) => Close(a, Paper, symbol, signal, exit).0
    case Entry(symbol, signal, quantity, entry, stop, target) =>
      Open(a, Paper, symbol, signal, quantity, entry, stop, target).0
    case Worker(symbol, signal, quantity, entry, stop, target, capital, live, maxOpen) =>
      WorkerOpen(a, symbol, signal, quantity, entry, stop, target, capital, live, maxOpen).0
    case Watch(prices, eod) => Monitor(a, prices, eod, |a.rows|)
  }

  function Run(balance: Option<real>, es: seq<Step>): Account {
    if es == [] then Account(balance, []) else Next(Run(balance, es[..|es| - 1]), es[|es| - 1])
  }

  lemma NextKeeps(a: Account, e: Step, initial: real)
    requires Inv(a, initial)
    ensures Inv(Next(a, e), initial) && Final(a, Next(a, e))
  {
    match e
    case Reverse(symbol, signal, exit) => CloseKeeps(a, symbol, signal, exit, initial);
    case Entry(symbol, signal, quantity, entry, stop, target) =>
      OpenKeeps(a, Paper, symbol, signal, quantity, entry, stop, target, initial);
    case Worker(symbol, signal, quantity, entry, stop, target, capital, live, maxOpen) =>
      WorkerOpenKeeps(a, symbol, signal, quantity, entry, stop, target, capital, live, maxOpen, initial);
    case Watch(prices, eod) => var _ := MonitorKeeps(a, prices, eod, |a.rows|, initial);
  }

  lemma {:induction false} RunKeeps(initial: real, es: seq<Step>)
    ensures Inv(Run(Some(initial), es), initial) && Run(Some(initial), es).balance.Some?
  {
    if es != [] {
      RunKeeps(initial, es[..|es| - 1]);
      NextKeeps(Run(Some(initial), es[..|es| - 1]), es[|es| - 1], initial);
      BalanceStays(Run(Some(initial), es[..|es| - 1]), es[|es| - 1]);
    }
  }

  lemma BalanceStays(a: Account, e: Step)
    requires a.balance.Some?
    ensures Next(a, e).balance.Some?
  {
    if e.Watch? { MonitorStays(a, e.prices, e.eod, |a.rows|); }
  }

  lemma {:induction false} MonitorStays(a: Account, prices: map<string, real>, eod: bool, n: nat)
    requires a.balance.Some? && n <= |a.rows|
    ensures Monitor(a, prices, eod, n).balance.Some?
  {
    if n > 0 { MonitorStays(a, prices, eod, n - 1); }
  }

  /** Over any run of reversals, entries, worker entries and monitor passes: balance plus the margin of open
      trades is the initial balance plus every realised result, and no two open trades share symbol and
      direction. */
  lemma MoneyIsConserved(initial: real, es: seq<Step>)
    ensures var a := Run(Some(initial), es);
            && a.balance.Some? && a.balance.value + Locked(a.rows) == initial + Realised(a.rows)
            && forall i, j :: 0 <= i < j < |a.rows| && a.rows[i].open && a.rows[j].open ==>
                 a.rows[i].symbol != a.rows[j].symbol || a.rows[i].direction != a.rows[j].direction
  {
    RunKeeps(initial, es);
  }

  /** A closed trade never changes again, whatever happens after. */
  lemma {:induction false} ClosedIsFinal(initial: real, es: seq<Step>, more: seq<Step>)
    ensures Final(Run(Some(initial), es), Run(Some(initial), es + more))
  {
    if more == [] {
      assert es + more == es;
    } else {
      ClosedIsFinal(initial, es, more[..|more| - 1]);
      assert (es + more)[..|es + more| - 1] == es + more[..|more| - 1];
      RunKeeps(initial, es + more[..|more| - 1]);
      NextKeeps(Run(Some(initial), es + more[..|more| - 1]), more[|more| - 1], initial);
    }
  }

  /** A reversal conserves money exactly when the mode is not disabled, or nothing is closed, or the closed
      trade's margin and result cancel: closing in disabled mode drops both. */
  lemma ReversalConservesIff(a: Account, route: Route, symbol: string, signal: Direction, exit: real, initial: real)
    requires Inv(a, initial) && a.balance.Some?
    ensures var f := Find(a.rows, symbol, Some(Opposite(signal)));
            Conserved(Close(a, route, symbol, signal, exit).0, initial) <==>
              || route.Paper? || !f.Found? || exit <= 0.0
              || (f.k < |a.rows| && var r := a.rows[f.k];
                     Margin(r.quantity, r.entry) + Gross(r, exit) - ExitCost(r) == 0.0)
  {
    CloseKeeps(a, symbol, signal, exit, initial);
    var d := Some(Opposite(signal));
    FoundIsMatch(a.rows, symbol, d);
    var f := Find(a.rows, symbol, d);
    if f.Found? && exit > 0.0 {
      var r := a.rows[f.k];
      SumsUpdate(a.rows, f.k, ClosedRow(r, exit, Gross(r, exit) - ExitCost(r)));
    }
  }

  // ---------------------------------------------------------------- batches

  const EXECUTED_TTL_MS: int := 3_600_000

  /** One scan result, taken up at `at`; `locked` when the portfolio lock was acquired in time for it. */
  datatype Item = Item(symbol: string, signal: Option<Direction>, entry: real, stop: real, target: real,
                       locked: bool, at: int)

  datatype Sizing = ByCapital(capital: real) | Fixed(quantity: int)

  datatype Key = Key(symbol: string, signal: Direction, entry: real)

  datatype Config = Config(route: Route, sizing: Sizing, live: nat, maxOpen: int)

  /** Keys of executed signals, and when they expire. */
  type Keys = map<Key, int>

  /** A batch in progress: free slots as counted so far, keys of executed signals, and whether a query raised. */
  datatype Batch = Batch(account: Account, slots: int, executed: Keys, raised: bool)

  predicate Executed(keys: Keys, key: Key, now: int) { key in keys && now < keys[key] }

  function CalcQuantity(sizing: Sizing, entry: real): int {
    match sizing
    case ByCapital(capital) => if entry <= 0.0 then 0 else (capital / entry).Floor
    case Fixed(quantity) => quantity
  }

  function TryOpen(c: Config, b: Batch, item: Item, signal: Direction): Batch {
    var key := Key(item.symbol, signal, item.entry);
    if b.slots <= 0 || !item.locked || CountOpen(b.account.rows) + c.live >= c.maxOpen
       || Executed(b.executed, key, item.at)
    then b
    else
      var (a, r) := Open(b.account, c.route, item.symbol, signal, CalcQuantity(c.sizing, item.entry), item.entry,
                         item.stop, item.target);
      match r
      case Raised => b.(raised := true)
      case Skipped => b
      case Done => Batch(a, b.slots - 1, b.executed[key := item.at + EXECUTED_TTL_MS], false)
  }

  function OnItem(c: Config, b: Batch, item: Item): Batch {
    if b.raised || item.signal.None? then b
    else
      var (a, r) := Close(b.account, c.route, item.symbol, item.signal.value, item.entry);
      if r.Raised? then b.(raised := true)
      else TryOpen(c, b.(account := a, slots := b.slots + if r.Done? then 1 else 0), item, item.signal.value)
  }

  function OnItems(c: Config, b: Batch, items: seq<Item>): Batch {
    if items == [] then b else OnItem(c, OnItems(c, b, items[..|items| - 1]), items[|items| - 1])
  }

  /** After a reversal at a positive price no trade of the opposite direction is open. */
  lemma ReversalClearsOpposite(a: Account, route: Route, symbol: string, signal: Direction, exit: real)
    requires Unique(a.rows) && exit > 0.0
    ensures var (b, r) := Close(a, route, symbol, signal, exit);
            && !r.Raised? && Unique(b.rows)
            && forall i :: 0 <= i < |b.rows| ==> !Matches(b.rows[i], symbol, Some(Opposite(signal)))
  {
    FoundIsMatch(a.rows, symbol, Some(Opposite(signal)));
  }

  lemma OneSidedNeverRaises(rows: seq<Row>, symbol: string, signal: Direction)
    requires Unique(rows) && forall i :: 0 <= i < |rows| ==> !Matches(rows[i], symbol, Some(Opposite(signal)))
    ensures !Find(rows, symbol, None).Several?
  {
    FoundIsMatch(rows, symbol, None);
    forall i | 0 <= i < |rows| && Matches(rows[i], symbol, None) ensures Matches(rows[i], symbol, Some(signal)) {
      assert !Matches(rows[i], symbol, Some(Opposite(signal)));
    }
  }

  lemma ItemKeeps(c: Config, b: Batch, item: Item, initial: real)
    requires c.route.Paper? && Inv(b.account, initial) && !b.raised
    ensures var t := OnItem(c, b, item);
            && Inv(t.account, initial) && Final(b.account, t.account) && !t.raised
            && (CountOpen(t.account.rows) <= CountOpen(b.account.rows)
                || CountOpen(t.account.rows) + c.live <= c.maxOpen)
  {
    if item.signal.Some? {
      var s := item.signal.value;
      CloseKeeps(b.account, item.symbol, s, item.entry, initial);
      var (a, r) := Close(b.account, c.route, item.symbol, s, item.entry);
      OpenKeeps(a, c.route, item.symbol, s, CalcQuantity(c.sizing, item.entry),
                item.entry, item.stop, item.target, initial);
      if item.entry > 0.0 {
        ReversalClearsOpposite(b.account, c.route, item.symbol, s, item.entry);
        OneSidedNeverRaises(a.rows, item.symbol, s);
      }
    }
  }

  /** A batch conserves money, never meets two rows where it asks for one, and never takes the open positions
      above the limit, or above what they were. */
  lemma {:induction false} BatchKeeps(c: Config, b: Batch, items: seq<Item>, initial: real)
    requires c.route.Paper? && Inv(b.account, initial) && !b.raised
    ensures var t := OnItems(c, b, items);
            && Inv(t.account, initial) && Final(b.account, t.account) && !t.raised
            && (CountOpen(t.account.rows) <= CountOpen(b.account.rows)
                || CountOpen(t.account.rows) + c.live <= c.maxOpen)
  {
    if items != [] {
      BatchKeeps(c, b, items[..|items| - 1], initial);
      ItemKeeps(c, OnItems(c, b, items[..|items| - 1]), items[|items| - 1], initial);
    }
  }

  // ---------------------------------------------------------------- execution keys

  datatype Entrance = Entrance(key: Key, at: int)

  /** The trades a batch enters, by the key of their signal. */
  function Entrances(c: Config, b: Batch, items: seq<Item>): seq<Entrance> {
    if items == [] then []
    else
      var us, item := items[..|items| - 1], items[|items| - 1];
      var before, after := OnItems(c, b, us), OnItems(c, b, items);
      Entrances(c, b, us)
      + if |after.account.rows| > |before.account.rows| && item.signal.Some?
        then [Entrance(Key(item.symbol, item.signal.value, item.entry), item.at)] else []
  }

  lemma EntranceSetsKey(c: Config, b: Batch, item: Item)
    ensures var t := OnItem(c, b, item);
            if |t.account.rows| > |b.account.rows|
            then item.signal.Some?
                 && var key := Key(item.symbol, item.signal.value, item.entry);
                    !Executed(b.executed, key, item.at) && t.executed == b.executed[key := item.at + EXECUTED_TTL_MS]
            else t.executed == b.executed
  {
    if item.signal.Some? { FoundIsMatch(b.account.rows, item.symbol, Some(Opposite(item.signal.value))); }
  }

  lemma {:induction false} EntrancesAreKept(c: Config, b: Batch, items: seq<Item>, k: nat)
    requires k < |Entrances(c, b, items)|
    ensures var e := Entrances(c, b, items)[k];
            e.key in OnItems(c, b, items).executed && e.at + EXECUTED_TTL_MS <= OnItems(c, b, items).executed[e.key]
  {
    var us := items[..|items| - 1];
    EntranceSetsKey(c, OnItems(c, b, us), items[|items| - 1]);
    if k < |Entrances(c, b, us)| { EntrancesAreKept(c, b, us, k); }
  }

  /** Entries on the same signal, of one symbol at one price, are at least an hour apart. */
  lemma {:induction false} EntrancesAreSpaced(c: Config, b: Batch, items: seq<Item>, j: nat, k: nat)
    requires j < k < |Entrances(c, b, items)|
    requires Entrances(c, b, items)[j].key == Entrances(c, b, items)[k].key
    ensures Entrances(c, b, items)[j].at + 3_600_000 <= Entrances(c, b, items)[k].at
  {
    var us := items[..|items| - 1];
    if k < |Entrances(c, b, us)| {
      EntrancesAreSpaced(c, b, us, j, k);
    } else {
      EntranceSetsKey(c, OnItems(c, b, us), items[|items| - 1]);
      EntrancesAreKept(c, b, us, j);
    }
  }
}
