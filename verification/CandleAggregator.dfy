/** One-minute candles from live ticks, with duplicate and out-of-order protection. */
module CandleAggregator {
  import opened Common
  import opened Candles
  import opened MarketData

  const RECENT: nat := 20
  const IST_OFFSET_MS: nat := 19_800_000

  /** The instant, in seconds, at which the wall-clock minute of the tick began in India. */
  function MinuteStart(ms: nat): int {
    ((ms + IST_OFFSET_MS) / 60_000 * 60_000 - IST_OFFSET_MS) / 1000
  }

  lemma MinuteStartIsFloor(ms: nat)
    ensures MinuteStart(ms) == FloorTo(ms / 1000, 4)
  {
    var m := ms / 60_000;
    assert 60 * m <= ms / 1000 < 60 * m + 60;
    assert (ms + IST_OFFSET_MS) / 60_000 == m + 330;
  }

  /** The candle under construction; a low of None is the initial infinity. */
  datatype Building =
    Building(minuteStart: int, open: real, high: real, low: Option<real>, close: real, volume: int, ticks: nat)

  function NewBuilding(minuteStart: int): Building {
    Building(minuteStart, 0.0, 0.0, None, 0.0, 0, 0)
  }

  function NonNegative(v: int): int { if v >= 0 then v else 0 }

  function WithTick(b: Building, price: real, volume: int): Building {
    var first := b.ticks == 0;
    Building(b.minuteStart,
             if first then price else b.open,
             if first then price else Max(b.high, price),
             Some(if first || b.low.None? then price else Min(b.low.value, price)),
             price, b.volume + NonNegative(volume), b.ticks + 1)
  }

  function ToCandle(b: Building): Candle {
    Candle(b.minuteStart, b.open, b.high, if b.low.Some? then b.low.value else b.open, b.close, b.volume)
  }

  /** What the aggregator remembers of one symbol; a tick is its own signature. */
  datatype Memory = Memory(building: Option<Building>, lastMs: Option<nat>, recent: seq<Tick>)

  const FORGOTTEN := Memory(None, None, [])

  datatype Verdict = Duplicate | OutOfOrder | Accepted

  function Judge(m: Memory, t: Tick): Verdict {
    if t in m.recent then Duplicate
    else if m.lastMs.Some? && t.ms < m.lastMs.value then OutOfOrder
    else Accepted
  }

  /** The candle under construction with an accepted tick, and the one of another minute it closed. */
  function Extended(building: Option<Building>, t: Tick): (Building, Option<Candle>) {
    var start := MinuteStart(t.ms);
    var crossed := building.Some? && building.value.minuteStart != start;
    var current := if building.Some? && !crossed then building.value else NewBuilding(start);
    (WithTick(current, t.price, t.volume), if crossed then Some(ToCandle(building.value)) else None)
  }

  /** The memory after a tick, and the candle it closed. */
  function TickStep(m: Memory, t: Tick): (Memory, Option<Candle>) {
    match Judge(m, t)
    case Duplicate => (m, None)
    case OutOfOrder => (m.(recent := Append(m.recent, t, RECENT)), None)
    case Accepted =>
      var (b, closed) := Extended(m.building, t);
      (Memory(Some(b), Some(t.ms), Append(m.recent, t, RECENT)), closed)
  }

  class CandleBuilder {
    const minuteStart: int
    var open: real
    var high: real
    var low: Option<real>
    var close: real
    var volume: int
    var tickCount: nat

    function Value(): Building
      reads this
    {
      Building(minuteStart, open, high, low, close, volume, tickCount)
    }

    constructor (minuteStart: int)
      ensures Value() == NewBuilding(minuteStart)
    {
      this.minuteStart := minuteStart;
      open, high, low, close, volume, tickCount := 0.0, 0.0, None, 0.0, 0, 0;
    }

    method AddTick(price: real, volume: int)
      modifies this
      ensures Value() == WithTick(old(Value()), price, volume)
    {
      if tickCount == 0 {
        open := price;
        high := price;
        low := Some(price);
      } else {
        high := Max(high, price);
        low := Some(if low.None? then price else Min(low.value, price));
      }
      close := price;
      this.volume := this.volume + NonNegative(volume);
      tickCount := tickCount + 1;
    }

    method ToDict() returns (c: Candle)
      ensures c == ToCandle(Value())
    {
      c := Candle(minuteStart, open, high, if low.Some? then low.value else open, close, volume);
    }
  }

  class Aggregator {
    var builders: map<string, CandleBuilder>
    var lastTickMs: map<string, nat>
    var recentTicks: map<string, seq<Tick>>

    /** Builders of different symbols are different objects. */
    ghost predicate Valid()
      reads this
    {
      forall s, s' :: s in builders && s' in builders && s != s' ==> builders[s] != builders[s']
    }

    ghost function MemoryOf(s: string): Memory
      reads this, builders.Values
    {
      Memory(if s in builders then Some(builders[s].Value()) else None,
             if s in lastTickMs then Some(lastTickMs[s]) else None,
             if s in recentTicks then recentTicks[s] else [])
    }

    constructor ()
      ensures Valid() && forall s :: MemoryOf(s) == FORGOTTEN
    {
      builders, lastTickMs, recentTicks := map[], map[], map[];
    }

    /** One tick: judge it, close the candle of another minute, add it. */
    method Consume(symbol: string, price: real, volume: int, ms: nat) returns (completed: Option<Candle>)
      requires Valid()
      modifies this, if symbol in builders then {builders[symbol]} else {}
      ensures Valid()
      ensures (MemoryOf(symbol), completed) == TickStep(old(MemoryOf(symbol)), Tick(price, volume, ms))
      ensures forall s :: s != symbol ==> MemoryOf(s) == old(MemoryOf(s))
    {
      completed := None;
      if symbol !in recentTicks {
        recentTicks := recentTicks[symbol := []];
      }
      var signature := Tick(price, volume, ms);
      if signature in recentTicks[symbol] {
        return;
      }
      recentTicks := recentTicks[symbol := Append(recentTicks[symbol], signature, RECENT)];
      if symbol in lastTickMs && ms < lastTickMs[symbol] {
        return;
      }
      lastTickMs := lastTickMs[symbol := ms];
      completed := Build(symbol, price, volume, ms);
    }

    method Build(symbol: string, price: real, volume: int, ms: nat) returns (completed: Option<Candle>)
      requires Valid()
      modifies `builders, if symbol in builders then {builders[symbol]} else {}
      ensures Valid() && symbol in builders
      ensures (builders[symbol].Value(), completed) == Extended(old(MemoryOf(symbol).building), Tick(price, volume, ms))
      ensures forall s :: s != symbol ==> MemoryOf(s) == old(MemoryOf(s))
    {
      completed := Cross(symbol, MinuteStart(ms));
      builders[symbol].AddTick(price, volume);
    }

    /** A closed candle also clears the cached volume of the tick's instrument, when the tick names one. */
    method ProcessTick(symbol: string, price: real, volume: int, ms: nat, instrument: string, cache: MarketDataCache)
      returns (completed: Option<Candle>)
      requires Valid()
      modifies this, cache, if symbol in builders then {builders[symbol]} else {}
      ensures Valid()
      ensures (MemoryOf(symbol), completed) == TickStep(old(MemoryOf(symbol)), Tick(price, volume, ms))
      ensures forall s :: s != symbol ==> MemoryOf(s) == old(MemoryOf(s))
      ensures forall k :: cache.GetVolume(k) ==
                if completed.Some? && instrument != "" && k == instrument then 0 else old(cache.GetVolume(k))
    {
      completed := Consume(symbol, price, volume, ms);
      if completed.Some? && instrument != "" {
        cache.ResetVolume(instrument);
      }
    }

    /** Closes the builder of another minute and makes sure one exists for this minute. */
    method Cross(symbol: string, minuteStart: int) returns (completed: Option<Candle>)
      requires Valid()
      modifies `builders
      ensures Valid() && symbol in builders
      ensures forall s :: s in old(builders) && s != symbol ==> s in builders && builders[s] == old(builders[s])
      ensures forall s :: s in builders && s != symbol ==> s in old(builders)
      ensures if symbol in old(builders) && old(builders[symbol].minuteStart) == minuteStart
              then builders == old(builders) && completed == None
              else && fresh(builders[symbol]) && builders[symbol].Value() == NewBuilding(minuteStart)
                   && completed == (if symbol in old(builders)
                                    then Some(ToCandle(old(builders[symbol].Value()))) else None)
    {
      completed := None;
      if symbol in builders && builders[symbol].minuteStart != minuteStart {
        var closed := builders[symbol].ToDict();
        completed := Some(closed);
        var next := new CandleBuilder(minuteStart);
        builders := builders[symbol := next];
      }
      if symbol !in builders {
        var first := new CandleBuilder(minuteStart);
        builders := builders[symbol := first];
      }
    }

    method GetPendingCandle(symbol: string) returns (c: Option<Candle>)
      ensures c == match MemoryOf(symbol).building case None => None case Some(b) => Some(ToCandle(b))
    {
      if symbol !in builders {
        return None;
      }
      var pending := builders[symbol].ToDict();
      return Some(pending);
    }

    /** All candle state is forgotten, and every cached volume cleared. */
    method ResetSession(cache: MarketDataCache)
      modifies this, cache
      ensures Valid() && forall s :: MemoryOf(s) == FORGOTTEN
      ensures forall k :: cache.GetVolume(k) == 0
    {
      builders, lastTickMs, recentTicks := map[], map[], map[];
      var keys := cache.volumes.Keys;
      while keys != {}
        invariant forall k :: k !in keys ==> cache.GetVolume(k) == 0
        invariant Valid() && forall s :: MemoryOf(s) == FORGOTTEN
        decreases |keys|
      {
        var key :| key in keys;
        cache.ResetVolume(key);
        keys := keys - {key};
      }
    }
  }
}
