/** Paper trading over mutable trades and one balance, proved against the account as values. */
module PaperTrading {
  import opened Common
  import opened PaperLedger

  class PaperTrade {
    const symbol: string
    const direction: Direction
    const quantity: int
    const entry: real
    const target: real
    var stop: real
    var open: bool
    var exit: Option<real>
    var pnl: real

    constructor (symbol: string, direction: Direction, quantity: int, entry: real, stop: real, target: real)
      ensures IsRow(NewRow(symbol, direction, quantity, entry, stop, target))
    {
      this.symbol, this.direction, this.quantity, this.entry, this.target := symbol, direction, quantity, entry, target;
      this.stop, open, exit, pnl := stop, true, None, 0.0;
    }

    ghost predicate IsRow(r: Row)
      reads this
    {
      && symbol == r.symbol && direction == r.direction && quantity == r.quantity && entry == r.entry
      && stop == r.stop && target == r.target && open == r.open && exit == r.exit && pnl == r.pnl
    }

    /** The monitor's trail: once the price is one risk unit in profit, the stop follows at one unit. */
    method TrailStop(ltp: real, ghost r: Row)
      requires IsRow(r)
      modifies this`stop
      ensures IsRow(Trail(r, ltp))
    {
      if direction.Buy? {
        var riskUnit := entry - stop;
        if riskUnit > 0.0 && ltp > entry + riskUnit {
          var newStop := ltp - riskUnit;
          if newStop > stop {
            stop := newStop;
          }
        }
      } else {
        var riskUnit := stop - entry;
        if riskUnit > 0.0 && ltp < entry - riskUnit {
          var newStop := ltp + riskUnit;
          if newStop < stop {
            stop := newStop;
          }
        }
      }
    }

    /** Close on a reversal, net of the estimated cost. */
    method CloseBySignal(price: real, ghost r: Row)
      requires IsRow(r)
      modifies this
      ensures IsRow(ClosedRow(r, price, PaperLedger.Gross(r, price) - ExitCost(r)))
    {
      open, exit := false, Some(price);
      var gross := Worth(quantity, if direction.Buy? then price - entry else entry - price);
      var cost := 40.0 + Worth(quantity, entry) * 0.0005;
      pnl := gross - cost;
    }

    /** One pass of the monitor over this trade. */
    method Check(ltp: real, eod: bool, ghost r: Row) returns (closed: bool)
      requires IsRow(r) && r.open
      modifies this
      ensures IsRow(Watched(r, Some(ltp), eod)) && closed == !open
    {
      closed := eod;
      if !eod {
        TrailStop(ltp, r);
        if direction.Buy? {
          closed := ltp <= stop || ltp >= target;
        } else {
          closed := ltp >= stop || ltp <= target;
        }
      }
      if closed {
        open, exit := false, Some(ltp);
        pnl := Worth(quantity, if direction.Buy? then ltp - entry else entry - ltp);
      }
    }
  }

  /** The objects are the rows, in order, each its own. */
  ghost predicate Shows(trades: seq<PaperTrade>, rows: seq<Row>)
    reads trades
  {
    && |trades| == |rows|
    && (forall k :: 0 <= k < |trades| ==> trades[k].IsRow(rows[k]))
    && (forall j, k :: 0 <= j < k < |trades| ==> trades[j] != trades[k])
  }

  class PaperAccount {
    var balance: Option<real>
    var trades: seq<PaperTrade>

    ghost predicate IsAt(a: Account)
      reads this, trades
    {
      balance == a.balance && Shows(trades, a.rows)
    }

    constructor (balance: Option<real>)
      ensures IsAt(Account(balance, []))
    {
      this.balance, trades := balance, [];
    }

    method OneOrNone(symbol: string, d: Option<Direction>, ghost a: Account) returns (r: Lookup)
      requires IsAt(a)
      ensures r == Find(a.rows, symbol, d)
    {
      r := Missing;
      for i := 0 to |trades|
        invariant r == Find(a.rows[..i], symbol, d)
      {
        assert a.rows[..i + 1][..i] == a.rows[..i] && trades[i].IsRow(a.rows[i]);
        var t := trades[i];
        if t.open && t.symbol == symbol && (d.Some? ==> t.direction == d.value) {
          r := if r.Missing? then Found(i) else Several;
        }
      }
      assert a.rows[..|a.rows|] == a.rows;
    }

    method CountOpenTrades(ghost a: Account) returns (n: nat)
      requires IsAt(a)
      ensures n == CountOpen(a.rows)
    {
      n := 0;
      for i := 0 to |trades|
        invariant n == CountOpen(a.rows[..i])
      {
        assert a.rows[..i + 1][..i] == a.rows[..i] && trades[i].IsRow(a.rows[i]);
        if trades[i].open {
          n := n + 1;
        }
      }
      assert a.rows[..|a.rows|] == a.rows;
    }

    method Reverse(k: nat, route: Route, exit: real, ghost a: Account)
      requires IsAt(a) && k < |trades|
      modifies this`balance, trades[k]
      ensures IsAt(Reversed(a, route, k, exit))
    {
      var t := trades[k];
      assert t.IsRow(a.rows[k]);
      t.CloseBySignal(exit, a.rows[k]);
      if route.Paper? && balance.Some? {
        balance := Some(balance.value + (Margin(t.quantity, t.entry) + t.pnl));
      }
    }

    /** Close the open position a signal reverses. */
    method CloseTrade(route: Route, symbol: string, signal: Direction, exit: real, ghost a: Account) returns (r: Result)
      requires IsAt(a)
      modifies this`balance, trades
      ensures IsAt(Close(a, route, symbol, signal, exit).0) && r == Close(a, route, symbol, signal, exit).1
    {
      var found := OneOrNone(symbol, Some(Opposite(signal)), a);
      if found.Several? {
        return Raised;
      }
      if found.Missing? || exit <= 0.0 {
        return Skipped;
      }
      FoundIsMatch(a.rows, symbol, Some(Opposite(signal)));
      Reverse(found.k, route, exit, a);
      return Done;
    }

    /** Lock the margin and add the trade. */
    method EnterTrade(symbol: string, d: Direction, quantity: int, entry: real, stop: real, target: real,
                      ghost a: Account)
      returns (r: Result)
      requires IsAt(a)
      modifies this
      ensures var row := NewRow(symbol, d, quantity, entry, stop, target); IsAt(Enter(a, row).0) && r == Enter(a, row).1
      ensures forall k :: 0 <= k < |trades| ==> trades[k] in old(trades) || fresh(trades[k])
    {
      var margin := Margin(quantity, entry);
      if balance.Some? && balance.value < margin {
        return Skipped;
      }
      var t := new PaperTrade(symbol, d, quantity, entry, stop, target);
      trades := trades + [t];
      if balance.Some? {
        balance := Some(balance.value - margin);
      }
      return Done;
    }

    /** The batch's entry. */
    method OpenTrade(route: Route, symbol: string, signal: Direction, quantity: int, entry: real,
                     stop: real, target: real,
                     ghost a: Account)
      returns (r: Result)
      requires IsAt(a)
      modifies this
      ensures IsAt(Open(a, route, symbol, signal, quantity, entry, stop, target).0)
      ensures r == Open(a, route, symbol, signal, quantity, entry, stop, target).1
      ensures forall k :: 0 <= k < |trades| ==> trades[k] in old(trades) || fresh(trades[k])
    {
      if route.Disabled? || entry <= 0.0 || quantity < 1 {
        return Skipped;
      }
      var dupe := OneOrNone(symbol, None, a);
      if dupe.Several? {
        return Raised;
      }
      if dupe.Found? {
        return Skipped;
      }
      r := EnterTrade(symbol, signal, quantity, entry, stop, target, a);
    }

    /** The worker's entry. */
    method ExecutePaperTrade(symbol: string, signal: Direction, quantity: int, entry: real, stop: real, target: real,
                             capital: real, live: nat, maxOpen: int, ghost a: Account)
      returns (r: Result)
      requires IsAt(a)
      modifies this
      ensures IsAt(WorkerOpen(a, symbol, signal, quantity, entry, stop, target, capital, live, maxOpen).0)
      ensures r == WorkerOpen(a, symbol, signal, quantity, entry, stop, target, capital, live, maxOpen).1
    {
      if entry <= 0.0 {
        return Skipped;
      }
      var active := CountOpenTrades(a);
      if active + live >= maxOpen {
        return Skipped;
      }
      var existing := OneOrNone(symbol, Some(signal), a);
      if existing != Missing {
        return Skipped;
      }
      var n := quantity;
      if n <= 0 {
        var affordable := (capital / entry).Floor;
        n := if affordable >= 1 then affordable else 1;
      }
      r := EnterTrade(symbol, signal, n, entry, stop, target, a);
    }

    /** Check one open trade with a known price, and settle it when that closes it. */
    method CheckAt(i: nat, prices: map<string, real>, eod: bool, ghost b: Account)
      requires IsAt(b) && i < |trades|
      modifies this`balance, trades
      ensures IsAt(WatchAt(b, i, prices, eod))
    {
      var t := trades[i];
      assert t.IsRow(b.rows[i]);
      if t.open && t.symbol in prices {
        var closed := t.Check(prices[t.symbol], eod, b.rows[i]);
        if closed && balance.Some? {
          balance := Some(balance.value + (Margin(t.quantity, t.entry) + t.pnl));
        }
      }
    }

    /** The monitor's loop over all trades. */
    method CheckPaperTrades(prices: map<string, real>, eod: bool, ghost a: Account)
      requires IsAt(a)
      modifies this`balance, trades
      ensures IsAt(Monitor(a, prices, eod, |a.rows|))
    {
      for i := 0 to |trades|
        invariant IsAt(Monitor(a, prices, eod, i))
      {
        CheckAt(i, prices, eod, Monitor(a, prices, eod, i));
      }
    }

    /** One scan result: reverse, then enter if a slot, the lock and the keys allow. */
    method ProcessItem(c: Config, item: Item, slots0: int, executed0: Keys, ghost b: Batch)
      returns (slots: int, executed: Keys, raised: bool)
      requires IsAt(b.account) && slots0 == b.slots && executed0 == b.executed && !b.raised
      modifies this, trades
      ensures var t := OnItem(c, b, item);
              IsAt(t.account) && slots == t.slots && executed == t.executed && raised == t.raised
      ensures forall k :: 0 <= k < |trades| ==> trades[k] in old(trades) || fresh(trades[k])
    {
      slots, executed, raised := slots0, executed0, false;
      if item.signal.None? {
        return;
      }
      var signal := item.signal.value;
      var closing := CloseTrade(c.route, item.symbol, signal, item.entry, b.account);
      if closing.Raised? {
        return slots, executed, true;
      }
      if closing.Done? {
        slots := slots + 1;
      }
      ghost var a := Close(b.account, c.route, item.symbol, signal, item.entry).0;
      slots, executed, raised := EnterItem(c, item, signal, slots, executed, b.(account := a, slots := slots));
    }

    /** The entry of an item, under the lock: the slots are counted again, and the keys looked up. */
    method EnterItem(c: Config, item: Item, signal: Direction, slots0: int, executed0: Keys, ghost b: Batch)
      returns (slots: int, executed: Keys, raised: bool)
      requires IsAt(b.account) && slots0 == b.slots && executed0 == b.executed && !b.raised
      modifies this
      ensures var t := TryOpen(c, b, item, signal);
              IsAt(t.account) && slots == t.slots && executed == t.executed && raised == t.raised
      ensures forall k :: 0 <= k < |trades| ==> trades[k] in old(trades) || fresh(trades[k])
    {
      slots, executed, raised := slots0, executed0, false;
      if slots <= 0 || !item.locked {
        return;
      }
      var openNow := CountOpenTrades(b.account);
      if c.maxOpen - (openNow + c.live) <= 0 {
        return;
      }
      var key := Key(item.symbol, signal, item.entry);
      if Executed(executed, key, item.at) {
        return;
      }
      var opening := OpenTrade(c.route, item.symbol, signal, CalcQuantity(c.sizing, item.entry), item.entry,
                               item.stop, item.target, b.account);
      if opening.Raised? {
        raised := true;
      } else if opening.Done? {
        executed := executed[key := item.at + EXECUTED_TTL_MS];
        slots := slots - 1;
      }
    }

    method ProcessBatch(c: Config, items: seq<Item>, executed0: Keys, ghost a: Account)
      returns (executed: Keys, raised: bool)
      requires IsAt(a)
      modifies this, trades
      ensures var t := OnItems(c, Batch(a, c.maxOpen - (CountOpen(a.rows) + c.live), executed0, false), items);
              IsAt(t.account) && executed == t.executed && raised == t.raised
    {
      var openCount := CountOpenTrades(a);
      var slots := c.maxOpen - (openCount + c.live);
      executed, raised := executed0, false;
      ghost var start := Batch(a, slots, executed, false);
      ghost var b := start;
      var i := 0;
      while i < |items| && !raised
        invariant 0 <= i <= |items|
        invariant b == OnItems(c, start, items[..i])
        invariant IsAt(b.account) && slots == b.slots && executed == b.executed && raised == b.raised
        invariant forall k :: 0 <= k < |trades| ==> trades[k] in old(trades) || fresh(trades[k])
      {
        assert items[..i + 1][..i] == items[..i];
        slots, executed, raised := ProcessItem(c, items[i], slots, executed, b);
        b := OnItem(c, b, items[i]);
        i := i + 1;
      }
      RaisedStays(c, start, items, i);
      assert b == OnItems(c, start, items);
    }
  }

  /** Once a query has raised, the rest of the batch does nothing. */
  lemma {:induction false} RaisedStays(c: Config, b: Batch, items: seq<Item>, i: nat)
    requires i <= |items| && (OnItems(c, b, items[..i]).raised || i == |items|)
    ensures OnItems(c, b, items) == OnItems(c, b, items[..i])
  {
    if i == |items| {
      assert items[..i] == items;
    } else {
      var n := |items| - 1;
      assert items[..n][..i] == items[..i];
      RaisedStays(c, b, items[..n], i);
    }
  }
}
