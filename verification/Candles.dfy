/** Ticks, candles and the direct (non-incremental) reading of a candle over a run of ticks. */
module Candles {
  import opened Common

  /** A trade print. `ms` is the instant in milliseconds since the epoch. */
  datatype Tick = Tick(price: real, volume: int, ms: nat)

  /** An OHLCV candle value. `time` is the start instant in whole seconds. */
  datatype Candle = Candle(time: int, open: real, high: real, low: real, close: real, volume: int)

  /** int(epoch) of a tick. */
  function Sec(t: Tick): nat { t.ms / 1000 }

  const TIMEFRAMES: nat := 6

  /** Floor of an instant in whole seconds to a boundary of its timeframe. The timeframes "1s", "5s", "15s",
      "30s", "1m" and "5m" are numbered in that order; any other counts as one minute. */
  function FloorTo(sec: int, tf: nat): int {
    match tf
    case 0 => sec
    case 1 => sec / 5 * 5
    case 2 => sec / 15 * 15
    case 3 => sec / 30 * 30
    case 5 => sec / 300 * 300
    case _ => sec / 60 * 60
  }

  /** The lengths of the six timeframes in seconds. */
  const WIDTHS: seq<nat> := [1, 5, 15, 30, 60, 300]

  /** The floor is the one multiple of the timeframe's length whose window the instant lies in. */
  lemma {:induction false} FloorIsWindow(sec: int, tf: nat, start: int)
    requires tf < TIMEFRAMES
    ensures FloorTo(sec, tf) == start <==> start % WIDTHS[tf] == 0 && start <= sec < start + WIDTHS[tf]
  {
    match tf
    case 0 =>
    case 1 => UniqueMultiple5(sec, start);
    case 2 => UniqueMultiple15(sec, start);
    case 3 => UniqueMultiple30(sec, start);
    case 4 => UniqueMultiple60(sec, start);
    case 5 => UniqueMultiple300(sec, start);
  }

  lemma UniqueMultiple5(sec: int, start: int)
    ensures sec / 5 * 5 == start <==> start % 5 == 0 && start <= sec < start + 5
  {}

  lemma UniqueMultiple15(sec: int, start: int)
    ensures sec / 15 * 15 == start <==> start % 15 == 0 && start <= sec < start + 15
  {}

  lemma UniqueMultiple30(sec: int, start: int)
    ensures sec / 30 * 30 == start <==> start % 30 == 0 && start <= sec < start + 30
  {}

  lemma UniqueMultiple60(sec: int, start: int)
    ensures sec / 60 * 60 == start <==> start % 60 == 0 && start <= sec < start + 60
  {}

  lemma UniqueMultiple300(sec: int, start: int)
    ensures sec / 300 * 300 == start <==> start % 300 == 0 && start <= sec < start + 300
  {}

  /** Flooring to a finer timeframe first does not change the coarser floor. */
  lemma {:induction false} NestedFloor(sec: int, tf: nat)
    requires 1 <= tf < TIMEFRAMES
    ensures FloorTo(FloorTo(sec, tf - 1), tf) == FloorTo(sec, tf)
  {
    match tf
    case 1 =>
    case 2 =>
      assert 3 * (sec / 15) <= sec / 5 < 3 * (sec / 15) + 3;
      Quotient(sec / 5 * 5, sec / 15, 15);
    case 3 =>
      assert 2 * (sec / 30) <= sec / 15 < 2 * (sec / 30) + 2;
      Quotient(sec / 15 * 15, sec / 30, 30);
    case 4 =>
      assert 2 * (sec / 60) <= sec / 30 < 2 * (sec / 60) + 2;
      Quotient(sec / 30 * 30, sec / 60, 60);
    case 5 =>
      assert 5 * (sec / 300) <= sec / 60 < 5 * (sec / 300) + 5;
      Quotient(sec / 60 * 60, sec / 300, 300);
  }

  lemma Quotient(n: int, q: int, d: nat)
    requires d == 5 || d == 15 || d == 30 || d == 60 || d == 300
    requires q * d <= n < q * d + d
    ensures n / d == q
  {
    if d == 5 { assert n / 5 == q; }
    else if d == 15 { assert n / 15 == q; }
    else if d == 30 { assert n / 30 == q; }
    else if d == 60 { assert n / 60 == q; }
    else { assert n / 300 == q; }
  }

  lemma {:induction false} FloorMonotone(a: int, b: int, tf: nat)
    requires a <= b
    ensures FloorTo(a, tf) <= FloorTo(b, tf) <= b
  {
    match tf
    case 0 =>
    case 1 => assert a / 5 <= b / 5;
    case 2 => assert a / 15 <= b / 15;
    case 3 => assert a / 30 <= b / 30;
    case 5 => assert a / 300 <= b / 300;
    case _ => assert a / 60 <= b / 60;
  }

  function HighestPrice(ts: seq<Tick>): real
    requires ts != []
  {
    if |ts| == 1 then ts[0].price else Max(HighestPrice(ts[..|ts| - 1]), ts[|ts| - 1].price)
  }

  function LowestPrice(ts: seq<Tick>): real
    requires ts != []
  {
    if |ts| == 1 then ts[0].price else Min(LowestPrice(ts[..|ts| - 1]), ts[|ts| - 1].price)
  }

  /** The two extremes are prices of the run, and bound every price of the run. */
  lemma {:induction false} ExtremesAreExtreme(ts: seq<Tick>)
    requires ts != []
    ensures forall i :: 0 <= i < |ts| ==> LowestPrice(ts) <= ts[i].price <= HighestPrice(ts)
    ensures exists i :: 0 <= i < |ts| && ts[i].price == HighestPrice(ts)
    ensures exists i :: 0 <= i < |ts| && ts[i].price == LowestPrice(ts)
  {
    if |ts| > 1 {
      var us, t := ts[..|ts| - 1], ts[|ts| - 1];
      ExtremesAreExtreme(us);
      var i :| 0 <= i < |us| && us[i].price == HighestPrice(us);
      var j :| 0 <= j < |us| && us[j].price == LowestPrice(us);
      assert ts[i] == us[i] && ts[j] == us[j] && ts[|ts| - 1] == t;
      forall k | 0 <= k < |ts| ensures LowestPrice(ts) <= ts[k].price <= HighestPrice(ts) {
        if k < |us| { assert ts[k] == us[k]; }
      }
    } else {
      assert ts[0].price == HighestPrice(ts) == LowestPrice(ts);
    }
  }

  function TotalVolume(ts: seq<Tick>): int {
    if ts == [] then 0 else TotalVolume(ts[..|ts| - 1]) + ts[|ts| - 1].volume
  }

  /** The candle that starts at `time`, computed directly from its ticks. */
  function Direct(ts: seq<Tick>, time: int): Candle
    requires ts != []
  {
    Candle(time, ts[0].price, HighestPrice(ts), LowestPrice(ts), ts[|ts| - 1].price, TotalVolume(ts))
  }

  predicate Positive(ts: seq<Tick>) { forall i :: 0 <= i < |ts| ==> ts[i].price > 0.0 }

  lemma {:induction false} TotalVolumeConcat(a: seq<Tick>, b: seq<Tick>)
    ensures TotalVolume(a + b) == TotalVolume(a) + TotalVolume(b)
    decreases |b|
  {
    if b == [] {
      assert a + b == a;
    } else {
      assert (a + b)[..|a + b| - 1] == a + b[..|b| - 1];
      TotalVolumeConcat(a, b[..|b| - 1]);
    }
  }

  lemma {:induction false} ExtremesConcat(a: seq<Tick>, b: seq<Tick>)
    requires a != [] && b != []
    ensures HighestPrice(a + b) == Max(HighestPrice(a), HighestPrice(b))
    ensures LowestPrice(a + b) == Min(LowestPrice(a), LowestPrice(b))
    decreases |b|
  {
    if |b| == 1 {
      assert (a + b)[..|a + b| - 1] == a;
    } else {
      assert (a + b)[..|a + b| - 1] == a + b[..|b| - 1];
      ExtremesConcat(a, b[..|b| - 1]);
    }
  }

  lemma PositiveExtremes(ts: seq<Tick>)
    requires ts != [] && Positive(ts)
    ensures 0.0 < LowestPrice(ts) <= ts[0].price <= HighestPrice(ts)
  {
    ExtremesAreExtreme(ts);
  }
}
