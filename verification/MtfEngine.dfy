/** The multi-timeframe engine itself: dictionaries of mutable candles, updated in place. */
module MtfEngine {
  import opened Common
  import opened Candles
  import opened MtfSpec

  lemma CascadeStart(before: seq<Level>, t: Tick)
    requires |before| == TIMEFRAMES
    ensures var (l, closed) := UpdateLevel(before[0], 0, t.price, t.volume, Sec(t));
            Cascading(TickStep(before, t), before[0 := l], AsList(closed), 1)
  {}

  class MTFCandle {
    const time: int
    const timeframe: nat
    var open: real
    var high: real
    var low: real
    var close: real
    var volume: int
    var complete: bool

    function Value(): Candle
      reads this
    {
      Candle(time, open, high, low, close, volume)
    }

    constructor (time: int, open: real, timeframe: nat)
      ensures Value() == NewCandle(time, open) && this.timeframe == timeframe && !complete
    {
      this.time, this.timeframe := time, timeframe;
      this.open, high, low, close := open, open, open, open;
      volume, complete := 0, false;
    }

    /** The candle the engine builds from a finished candle value. */
    constructor Completed(c: Candle, timeframe: nat)
      ensures Value() == c && this.timeframe == timeframe && complete
    {
      this.time, this.timeframe := c.time, timeframe;
      open, high, low, close := c.open, c.high, c.low, c.close;
      volume, complete := c.volume, true;
    }

    method Update(price: real, volume: int)
      modifies this
      ensures Value() == Updated(old(Value()), price, volume) && complete == old(complete)
    {
      high := Max(high, price);
      low := Min(low, price);
      close := price;
      this.volume := this.volume + volume;
    }

    method Merge(other: MTFCandle)
      modifies this
      ensures Value() == Merged(old(Value()), old(other.Value())) && complete == old(complete)
    {
      if open == 0.0 {
        open := other.open;
      }
      high := Max(high, other.high);
      low := if low > 0.0 then Min(low, other.low) else other.low;
      close := other.close;
      volume := volume + other.volume;
    }
  }

  /** The candles listed are complete, and are these values, in order. */
  ghost predicate Shows(cs: seq<MTFCandle>, vs: seq<Candle>)
    reads cs
  {
    |cs| == |vs| && forall i :: 0 <= i < |cs| ==> cs[i].Value() == vs[i] && cs[i].complete
  }

  /** The comprehension [c for c in cs if c.timeframe == tf]. */
  function OfTimeframe(cs: seq<MTFCandle>, tf: nat): seq<MTFCandle> {
    if cs == [] then []
    else OfTimeframe(cs[..|cs| - 1], tf) + (if cs[|cs| - 1].timeframe == tf then [cs[|cs| - 1]] else [])
  }

  lemma {:induction false} OfTimeframeByIndex(cs: seq<MTFCandle>, tf: nat)
    requires forall i :: 0 <= i < |cs| ==> cs[i].timeframe == i
    ensures OfTimeframe(cs, tf) == if tf < |cs| then [cs[tf]] else []
  {
    if cs != [] { OfTimeframeByIndex(cs[..|cs| - 1], tf); }
  }

  function AsList(c: Option<Candle>): seq<Candle> {
    if c.Some? then [c.value] else []
  }

  /** The i-th candle returned belongs to timeframe i. */
  ghost predicate Numbered(cs: seq<MTFCandle>) {
    forall i :: 0 <= i < |cs| ==> cs[i].timeframe == i
  }

  /** The cascade is either still running, carrying its newest candle into timeframe k, or it is over. */
  ghost predicate Cascading(goal: (seq<Level>, seq<Candle>), ls: seq<Level>, out: seq<Candle>, k: nat)
    requires |ls| == TIMEFRAMES && 1 <= k <= TIMEFRAMES
  {
    if |out| == k then
      var (rest, more) := Cascade(ls, k, out[k - 1]);
      goal == (rest, out + more)
    else
      |out| < k && goal == (ls, out)
  }

  lemma CascadeStep(goal: (seq<Level>, seq<Candle>), ls: seq<Level>, out: seq<Candle>, k: nat)
    requires |ls| == TIMEFRAMES && 1 <= k < TIMEFRAMES && |out| == k && Cascading(goal, ls, out, k)
    ensures var (l, closed) := AggregateLevel(ls[k], k, out[k - 1]);
            Cascading(goal, ls[k := l], out + AsList(closed), k + 1)
  {
    var (l, closed) := AggregateLevel(ls[k], k, out[k - 1]);
    if closed.Some? {
      var (rest, more) := Cascade(ls[k := l], k + 1, closed.value);
      assert out + ([closed.value] + more) == out + [closed.value] + more;
    } else {
      assert out + [] == out;
    }
  }

  /** The entries of one symbol in the two dictionaries: the stored deques and the candles being built.
      `levels` is their value. */
  class SymbolCandles {
    var history: seq<seq<MTFCandle>>
    var current: seq<MTFCandle?>
    ghost var levels: seq<Level>
    ghost var Repr: set<object>

    /** Stored candles are complete; the candle being built for a timeframe is not. */
    ghost predicate Valid()
      reads this, Repr
    {
      && this in Repr
      && |history| == |current| == |levels| == TIMEFRAMES
      && (forall k, i :: 0 <= k < TIMEFRAMES && 0 <= i < |history[k]| ==>
            history[k][i] in Repr && history[k][i].complete)
      && (forall k :: 0 <= k < TIMEFRAMES && current[k] != null ==>
            current[k] in Repr && !current[k].complete && current[k].timeframe == k)
      && (forall k :: 0 <= k < TIMEFRAMES ==> |levels[k].history| == |history[k]|)
      && (forall k, i :: 0 <= k < TIMEFRAMES && 0 <= i < |history[k]| ==>
            levels[k].history[i] == history[k][i].Value())
      && (forall k :: 0 <= k < TIMEFRAMES ==>
            levels[k].current == if current[k] == null then None else Some(current[k].Value()))
    }

    ghost predicate Mine(cs: seq<MTFCandle>)
      reads this
    {
      Numbered(cs) && forall i :: 0 <= i < |cs| ==> cs[i] in Repr
    }

    constructor ()
      ensures Valid() && fresh(Repr) && levels == Empty()
    {
      history := [[], [], [], [], [], []];
      current := [null, null, null, null, null, null];
      levels := Empty();
      Repr := {this};
    }

    /** Marks the candle being built complete and stores it. */
    method CloseCurrent(tf: nat) returns (c: MTFCandle)
      requires Valid() && tf < TIMEFRAMES && current[tf] != null
      modifies this, current[tf]
      ensures Valid() && Repr == old(Repr)
      ensures c == old(current[tf]) && c.complete && c.Value() == old(c.Value())
      ensures current == old(current)[tf := null]
      ensures levels == old(levels)[tf := Level(Append(old(levels[tf].history), c.Value(), MAX_HISTORY), None)]
    {
      c := current[tf];
      c.complete := true;
      current := current[tf := null];
      history := history[tf := Append(history[tf], c, MAX_HISTORY)];
      levels := levels[tf := Level(Append(levels[tf].history, c.Value(), MAX_HISTORY), None)];
    }

    /** Closes the candle of a timeframe when it belongs to another window, and starts the next one. */
    method Roll(tf: nat, start: int, open: real) returns (completed: seq<MTFCandle>)
      requires Valid() && tf < TIMEFRAMES
      modifies this, current[tf]
      ensures Valid() && old(Repr) <= Repr && fresh(Repr - old(Repr))
      ensures current[tf] != null && (current[tf] == old(current[tf]) || fresh(current[tf]))
      ensures var (l, closed) := Rolled(old(levels[tf]), start, open);
              levels == old(levels)[tf := l] && Shows(completed, AsList(closed))
      ensures forall c :: c in completed ==> c in old(Repr) && c.timeframe == tf
    {
      completed := [];
      if current[tf] == null || current[tf].time != start {
        if current[tf] != null {
          var c := CloseCurrent(tf);
          completed := completed + [c];
        }
        var next := new MTFCandle(start, open, tf);
        current := current[tf := next];
        Repr := Repr + {next};
        levels := levels[tf := levels[tf].(current := Some(next.Value()))];
      }
    }

    method UpdateCandle(tf: nat, price: real, volume: int, sec: int) returns (completed: seq<MTFCandle>)
      requires Valid() && tf < TIMEFRAMES
      modifies this, current[tf]
      ensures Valid() && old(Repr) <= Repr && fresh(Repr - old(Repr))
      ensures var (l, closed) := UpdateLevel(old(levels[tf]), tf, price, volume, sec);
              levels == old(levels)[tf := l] && Shows(completed, AsList(closed))
      ensures forall c :: c in completed ==> c in old(Repr) && c.timeframe == tf
    {
      completed := Roll(tf, FloorTo(sec, tf), price);
      current[tf].Update(price, volume);
      levels := levels[tf := levels[tf].(current := Some(current[tf].Value()))];
    }

    method AggregateUp(parentTf: nat, child: MTFCandle) returns (completed: seq<MTFCandle>)
      requires Valid() && parentTf < TIMEFRAMES && child in Repr && child.complete
      modifies this, current[parentTf]
      ensures Valid() && old(Repr) <= Repr && fresh(Repr - old(Repr))
      ensures var (l, closed) := AggregateLevel(old(levels[parentTf]), parentTf, old(child.Value()));
              levels == old(levels)[parentTf := l] && Shows(completed, AsList(closed))
      ensures forall c :: c in completed ==> c in old(Repr) && c.timeframe == parentTf
    {
      completed := Roll(parentTf, FloorTo(child.time, parentTf), child.open);
      current[parentTf].Merge(child);
      levels := levels[parentTf := levels[parentTf].(current := Some(current[parentTf].Value()))];
    }

    /** The child completed at timeframe k - 1 enters timeframe k. */
    method CascadeChild(k: nat, child: MTFCandle, completed: seq<MTFCandle>, ghost out: seq<Candle>,
                        ghost goal: (seq<Level>, seq<Candle>))
      returns (all: seq<MTFCandle>, ghost out': seq<Candle>)
      requires Valid() && 1 <= k < TIMEFRAMES && Mine(completed) && |out| == k && Shows(completed, out)
      requires child in Repr && child.complete && child.Value() == out[k - 1] && Cascading(goal, levels, out, k)
      modifies this, current[k]
      ensures Valid() && old(Repr) <= Repr && fresh(Repr - old(Repr)) && Mine(all)
      ensures Shows(all, out') && Cascading(goal, levels, out', k + 1)
    {
      CascadeStep(goal, levels, out, k);
      out' := out + AsList(AggregateLevel(levels[k], k, out[k - 1]).1);
      var cascaded := AggregateUp(k, child);
      all := completed + cascaded;
    }

    /** The children completed at timeframe k - 1 enter timeframe k. `out` are the values returned so far. */
    method CascadeInto(k: nat, completed: seq<MTFCandle>, ghost out: seq<Candle>,
                       ghost goal: (seq<Level>, seq<Candle>))
      returns (all: seq<MTFCandle>, ghost out': seq<Candle>)
      requires Valid() && 1 <= k < TIMEFRAMES && Mine(completed)
      requires Shows(completed, out) && Cascading(goal, levels, out, k)
      modifies Repr
      ensures Valid() && old(Repr) <= Repr && fresh(Repr - old(Repr)) && Mine(all)
      ensures Shows(all, out') && Cascading(goal, levels, out', k + 1)
    {
      all, out' := completed, out;
      OfTimeframeByIndex(completed, k - 1);
      var children := OfTimeframe(completed, k - 1);
      for j := 0 to |children|
        invariant Valid() && old(Repr) <= Repr && fresh(Repr - old(Repr)) && Mine(all) && Shows(all, out')
        invariant j == 0 ==> levels == old(levels) && all == completed && out' == out
        invariant j == 1 ==> Cascading(goal, levels, out', k + 1)
      {
        all, out' := CascadeChild(k, children[j], all, out', goal);
      }
    }

    /** What process_tick does to the candles of its symbol. */
    method ProcessTick(price: real, volume: int, ms: nat) returns (completed: seq<MTFCandle>)
      requires Valid()
      modifies Repr
      ensures Valid() && old(Repr) <= Repr && fresh(Repr - old(Repr))
      ensures Numbered(completed)
      ensures var (ls, emitted) := TickStep(old(levels), Tick(price, volume, ms));
              levels == ls && Shows(completed, emitted)
    {
      ghost var t := Tick(price, volume, ms);
      ghost var goal := TickStep(levels, t);
      ghost var out := AsList(UpdateLevel(levels[0], 0, price, volume, Sec(t)).1);
      CascadeStart(levels, t);
      completed := UpdateCandle(0, price, volume, ms / 1000);
      for k := 1 to TIMEFRAMES
        invariant Valid() && old(Repr) <= Repr && fresh(Repr - old(Repr)) && Mine(completed)
        invariant Shows(completed, out) && Cascading(goal, levels, out, k)
      {
        completed, out := CascadeInto(k, completed, out, goal);
      }
      assert out + [] == out;
    }

    method StoreMinute(candle: Candle) returns (minute: MTFCandle)
      requires Valid()
      modifies this
      ensures Valid() && minute in Repr && fresh(minute) && Repr == old(Repr) + {minute} && current == old(current)
      ensures minute.complete && minute.Value() == candle
      ensures levels == old(levels)[MINUTE := old(levels[MINUTE]).(
                history := Append(old(levels[MINUTE]).history, candle, MAX_HISTORY))]
    {
      minute := new MTFCandle.Completed(candle, MINUTE);
      history := history[MINUTE := Append(history[MINUTE], minute, MAX_HISTORY)];
      levels := levels[MINUTE := levels[MINUTE].(history := Append(levels[MINUTE].history, candle, MAX_HISTORY))];
      Repr := Repr + {minute};
    }

    /** What process_1m_candle does to the candles of its symbol. */
    method Process1mCandle(candle: Candle) returns (completed: seq<MTFCandle>)
      requires Valid()
      modifies Repr
      ensures Valid() && old(Repr) <= Repr && fresh(Repr - old(Repr))
      ensures var (ls, closed) := MinuteStep(old(levels), candle);
              levels == ls && Shows(completed, AsList(closed))
    {
      var minute := StoreMinute(candle);
      completed := AggregateUp(MINUTE + 1, minute);
    }
  }

  class MultiTimeframeEngine {
    var books: map<string, SymbolCandles>

    ghost var Repr: set<object>

    ghost predicate Valid()
      reads this, Repr
    {
      && this !in Repr
      && (forall s :: s in books ==> books[s] in Repr && books[s].Repr <= Repr && books[s].Valid())
      && (forall s, s' :: s in books && s' in books && s != s' ==> books[s].Repr !! books[s'].Repr)
    }

    ghost function State(s: string): seq<Level>
      reads this, books.Values
    {
      if s in books then books[s].levels else Empty()
    }

    constructor ()
      ensures Valid() && books == map[]
    {
      books, Repr := map[], {};
    }

    method EnsureSymbol(symbol: string)
      requires Valid()
      modifies this
      ensures Valid() && books.Keys == old(books.Keys) + {symbol}
      ensures symbol in old(books) ==> books == old(books)
      ensures symbol !in old(books) ==>
                && books == old(books)[symbol := books[symbol]]
                && fresh(books[symbol].Repr) && books[symbol].levels == Empty()
    {
      if symbol !in books {
        var b := new SymbolCandles();
        books := books[symbol := b];
        Repr := Repr + b.Repr;
      }
    }

    /** Work confined to one symbol leaves every other symbol as it was. */
    twostate lemma OthersKept(symbol: string)
      requires old(Valid()) && books == old(books) && symbol in books && books[symbol].Valid()
      requires fresh(books[symbol].Repr - old(books[symbol].Repr))
      requires forall o :: o in old(Repr) && o !in old(books[symbol].Repr) ==> unchanged(o)
      requires Repr == old(Repr) + books[symbol].Repr
      ensures Valid()
      ensures forall s :: s != symbol ==> State(s) == old(State(s))
    {
      forall s | s in books && s != symbol
        ensures books[s].Valid() && books[s].Repr == old(books[s].Repr) && books[s].levels == old(books[s].levels)
      {
        assert old(books[s].Repr !! books[symbol].Repr);
      }
    }

    method ProcessTickKnown(symbol: string, price: real, volume: int, ms: nat) returns (completed: seq<MTFCandle>)
      requires Valid() && symbol in books
      modifies `Repr, books[symbol].Repr
      ensures Valid() && books == old(books)
      ensures var (ls, emitted) := TickStep(old(books[symbol].levels), Tick(price, volume, ms));
              books[symbol].levels == ls && Shows(completed, emitted)
      ensures Numbered(completed)
      ensures forall s :: s != symbol ==> State(s) == old(State(s))
    {
      completed := books[symbol].ProcessTick(price, volume, ms);
      Repr := Repr + books[symbol].Repr;
      OthersKept(symbol);
    }

    method Process1mCandleKnown(symbol: string, candle: Candle) returns (completed: seq<MTFCandle>)
      requires Valid() && symbol in books
      modifies `Repr, books[symbol].Repr
      ensures Valid() && books == old(books)
      ensures var (ls, closed) := MinuteStep(old(books[symbol].levels), candle);
              books[symbol].levels == ls && Shows(completed, AsList(closed))
      ensures forall s :: s != symbol ==> State(s) == old(State(s))
    {
      completed := books[symbol].Process1mCandle(candle);
      Repr := Repr + books[symbol].Repr;
      OthersKept(symbol);
    }

    /** A tick updates the one-second candle and cascades every completion upwards. */
    method ProcessTick(symbol: string, price: real, volume: int, ms: nat) returns (completed: seq<MTFCandle>)
      requires Valid()
      modifies this, if symbol in books then books[symbol].Repr else {}
      ensures Valid() && books.Keys == old(books.Keys) + {symbol}
      ensures |old(State(symbol))| == TIMEFRAMES
      ensures var (ls, emitted) := TickStep(old(State(symbol)), Tick(price, volume, ms));
              State(symbol) == ls && Shows(completed, emitted)
      ensures Numbered(completed)
      ensures forall s :: s != symbol ==> State(s) == old(State(s))
    {
      EnsureSymbol(symbol);
      assert books[symbol].levels == old(State(symbol));
      completed := ProcessTickKnown(symbol, price, volume, ms);
    }

    /** A one-minute candle from the aggregator is stored and aggregated into five minutes. */
    method Process1mCandle(symbol: string, candle: Candle) returns (completed: seq<MTFCandle>)
      requires Valid()
      modifies this, if symbol in books then books[symbol].Repr else {}
      ensures Valid() && books.Keys == old(books.Keys) + {symbol}
      ensures |old(State(symbol))| == TIMEFRAMES
      ensures var (ls, closed) := MinuteStep(old(State(symbol)), candle);
              State(symbol) == ls && Shows(completed, AsList(closed))
      ensures forall s :: s != symbol ==> State(s) == old(State(s))
    {
      EnsureSymbol(symbol);
      assert books[symbol].levels == old(State(symbol));
      completed := Process1mCandleKnown(symbol, candle);
    }

    /** Historical candles of a timeframe, oldest first; none for an unknown symbol or timeframe. */
    method GetCandles(symbol: string, tf: nat) returns (candles: seq<MTFCandle>)
      requires Valid()
      ensures |State(symbol)| == TIMEFRAMES
      ensures Shows(candles, if tf < TIMEFRAMES then State(symbol)[tf].history else [])
    {
      if symbol !in books || tf >= TIMEFRAMES {
        return [];
      }
      return books[symbol].history[tf];
    }

    /** The incomplete candle of a timeframe, if one is being built. */
    method GetCurrentCandle(symbol: string, tf: nat) returns (candle: Option<Candle>)
      requires Valid()
      ensures |State(symbol)| == TIMEFRAMES
      ensures candle == if tf < TIMEFRAMES then State(symbol)[tf].current else None
    {
      if symbol !in books || tf >= TIMEFRAMES || books[symbol].current[tf] == null {
        return None;
      }
      return Some(books[symbol].current[tf].Value());
    }

    method ResetSession()
      requires Valid()
      modifies this
      ensures Valid() && forall s :: State(s) == Empty()
    {
      books := map[];
    }
  }
}
