/** What the multi-timeframe engine does to the candles of one symbol, on values.
    Timeframe numbers follow TIMEFRAMES: 0 is "1s", 4 is "1m", 5 is "5m". */
module MtfSpec {
  import opened Common
  import opened Candles

  const MAX_HISTORY: nat := 200
  const MINUTE: nat := 4

  /** The stored deque and the candle being built, for one timeframe. */
  datatype Level = Level(history: seq<Candle>, current: Option<Candle>)

  function NewCandle(time: int, open: real): Candle {
    Candle(time, open, open, open, open, 0)
  }

  function Updated(c: Candle, price: real, volume: int): Candle {
    c.(high := Max(c.high, price), low := Min(c.low, price), close := price, volume := c.volume + volume)
  }

  function Merged(c: Candle, other: Candle): Candle {
    Candle(c.time,
           if c.open == 0.0 then other.open else c.open,
           Max(c.high, other.high),
           if c.low > 0.0 then Min(c.low, other.low) else other.low,
           other.close,
           c.volume + other.volume)
  }

  /** The level once the candle that starts at `start` is under construction, with the candle it closed. */
  function Rolled(l: Level, start: int, open: real): (r: (Level, Option<Candle>))
    ensures r.0.current.Some?
  {
    match l.current
    case None => (Level(l.history, Some(NewCandle(start, open))), None)
    case Some(c) =>
      if c.time == start then (l, None)
      else (Level(Append(l.history, c, MAX_HISTORY), Some(NewCandle(start, open))), Some(c))
  }

  function UpdateLevel(l: Level, tf: nat, price: real, volume: int, sec: int): (Level, Option<Candle>) {
    var (r, closed) := Rolled(l, FloorTo(sec, tf), price);
    (r.(current := Some(Updated(r.current.value, price, volume))), closed)
  }

  function AggregateLevel(l: Level, tf: nat, child: Candle): (Level, Option<Candle>) {
    var (r, closed) := Rolled(l, FloorTo(child.time, tf), child.open);
    (r.(current := Some(Merged(r.current.value, child))), closed)
  }

  /** A completed child enters timeframe tf; what it completes there goes one timeframe further up.
      The i-th candle returned belongs to timeframe tf + i. */
  function Cascade(ls: seq<Level>, tf: nat, child: Candle): (r: (seq<Level>, seq<Candle>))
    requires |ls| == TIMEFRAMES && tf <= TIMEFRAMES
    ensures |r.0| == TIMEFRAMES && tf + |r.1| <= TIMEFRAMES
    ensures r.0[..tf] == ls[..tf]
    decreases TIMEFRAMES - tf
  {
    if tf == TIMEFRAMES then (ls, [])
    else
      var (l, closed) := AggregateLevel(ls[tf], tf, child);
      if closed.None? then (ls[tf := l], [])
      else
        var (rest, more) := Cascade(ls[tf := l], tf + 1, closed.value);
        assert rest[..tf] == rest[..tf + 1][..tf] == ls[tf := l][..tf + 1][..tf] == ls[..tf];
        (rest, [closed.value] + more)
  }

  function TickStep(ls: seq<Level>, t: Tick): (r: (seq<Level>, seq<Candle>))
    requires |ls| == TIMEFRAMES
    ensures |r.0| == TIMEFRAMES && |r.1| <= TIMEFRAMES
  {
    var (l, closed) := UpdateLevel(ls[0], 0, t.price, t.volume, Sec(t));
    if closed.None? then (ls[0 := l], [])
    else
      var (rest, more) := Cascade(ls[0 := l], 1, closed.value);
      (rest, [closed.value] + more)
  }

  /** A one-minute candle built elsewhere is stored as it is and aggregated into five minutes. */
  function MinuteStep(ls: seq<Level>, minute: Candle): (r: (seq<Level>, Option<Candle>))
    requires |ls| == TIMEFRAMES
    ensures |r.0| == TIMEFRAMES
  {
    var (l, closed) := AggregateLevel(ls[MINUTE + 1], MINUTE + 1, minute);
    (ls[MINUTE := ls[MINUTE].(history := Append(ls[MINUTE].history, minute, MAX_HISTORY))][MINUTE + 1 := l], closed)
  }

  function Empty(): (ls: seq<Level>)
    ensures |ls| == TIMEFRAMES
  {
    var none := Level([], None);
    [none, none, none, none, none, none]
  }

  /** The candles of one symbol after a whole run, and every candle it ever returned, by timeframe. */
  datatype Outcome = Outcome(levels: seq<Level>, log: seq<seq<Candle>>)

  function Logged(log: seq<seq<Candle>>, emitted: seq<Candle>): (r: seq<seq<Candle>>)
    requires |emitted| <= |log|
    ensures |r| == |log|
  {
    seq(|log|, k requires 0 <= k < |log| => if k < |emitted| then log[k] + [emitted[k]] else log[k])
  }

  function Run(ts: seq<Tick>): (o: Outcome)
    ensures |o.levels| == TIMEFRAMES == |o.log|
  {
    if ts == [] then Outcome(Empty(), seq(TIMEFRAMES, _ => []))
    else
      var o := Run(ts[..|ts| - 1]);
      var (levels, emitted) := TickStep(o.levels, ts[|ts| - 1]);
      Outcome(levels, Logged(o.log, emitted))
  }

  /** The other route: only one-minute candles arrive. */
  datatype MinuteOutcome = MinuteOutcome(levels: seq<Level>, fiveMinute: seq<Candle>)

  function RunMinutes(cs: seq<Candle>): (o: MinuteOutcome)
    ensures |o.levels| == TIMEFRAMES
  {
    if cs == [] then MinuteOutcome(Empty(), [])
    else
      var o := RunMinutes(cs[..|cs| - 1]);
      var (levels, closed) := MinuteStep(o.levels, cs[|cs| - 1]);
      MinuteOutcome(levels, if closed.Some? then o.fiveMinute + [closed.value] else o.fiveMinute)
  }
}
