/** Cumulative exchange volume turned into per-tick volume, and followed into the candles. */
module VolumeDelta {
  import opened Common
  import opened MarketData
  import Candles
  import MtfResults
  import MinuteRoutes

  const RESET_THRESHOLD: int := 10_000
  const MAX_FIRST_TICK_VOLUME: int := 50_000

  function MinInt(a: int, b: int): int { if a <= b then a else b }

  function MaxInt(a: int, b: int): int { if a >= b then a else b }

  function DeltaOf(prev: Option<int>, vtt: int): int {
    match prev
    case None => MinInt(vtt, MAX_FIRST_TICK_VOLUME)
    case Some(p) => if vtt < p - RESET_THRESHOLD then 0 else MaxInt(0, vtt - p)
  }

  class VolumeDeltaTracker {
    var prevVtt: map<string, int>

    ghost function Previous(key: string): Option<int>
      reads this
    {
      if key in prevVtt then Some(prevVtt[key]) else None
    }

    constructor ()
      ensures forall k :: Previous(k) == None
    {
      prevVtt := map[];
    }

    method GetDelta(key: string, currentVtt: int) returns (delta: int)
      modifies this
      ensures delta == DeltaOf(old(Previous(key)), currentVtt)
      ensures forall k :: Previous(k) == if k == key then Some(currentVtt) else old(Previous(k))
    {
      if key !in prevVtt {
        prevVtt := prevVtt[key := currentVtt];
        return MinInt(currentVtt, MAX_FIRST_TICK_VOLUME);
      }
      var prev := prevVtt[key];
      if currentVtt < prev - RESET_THRESHOLD {
        prevVtt := prevVtt[key := currentVtt];
        return 0;
      }
      delta := MaxInt(0, currentVtt - prev);
      prevVtt := prevVtt[key := currentVtt];
    }

    method Reset(key: string)
      modifies this
      ensures forall k :: Previous(k) == if k == key then None else old(Previous(k))
    {
      prevVtt := prevVtt - {key};
    }

    method ResetAll()
      modifies this
      ensures forall k :: Previous(k) == None
    {
      prevVtt := map[];
    }
  }

  /** The deltas of one instrument over a session's feed of cumulative volumes. */
  function Deltas(feed: seq<int>): (ds: seq<int>)
    ensures |ds| == |feed|
  {
    if feed == [] then []
    else
      var n := |feed| - 1;
      Deltas(feed[..n]) + [DeltaOf(if n == 0 then None else Some(feed[n - 1]), feed[n])]
  }

  function Sum(xs: seq<int>): int {
    if xs == [] then 0 else Sum(xs[..|xs| - 1]) + xs[|xs| - 1]
  }

  /** How far the feed fell, added up over all its falls. */
  function Dips(feed: seq<int>): int {
    if |feed| <= 1 then 0
    else Dips(feed[..|feed| - 1]) + MaxInt(0, feed[|feed| - 2] - feed[|feed| - 1])
  }

  /** The deltas telescope, falls aside; a fall large enough to count as a feed reset is no exception. */
  lemma {:induction false} DeltasTelescope(feed: seq<int>)
    requires feed != []
    ensures Sum(Deltas(feed)) ==
            MinInt(feed[0], MAX_FIRST_TICK_VOLUME) + (feed[|feed| - 1] - feed[0]) + Dips(feed)
  {
    DeltasSnoc(feed);
    if |feed| > 1 {
      DeltasTelescope(feed[..|feed| - 1]);
      DeltaIsRise(feed[|feed| - 2], feed[|feed| - 1]);
    }
  }

  lemma DeltasSnoc(feed: seq<int>)
    requires feed != []
    ensures var n := |feed| - 1;
            Sum(Deltas(feed)) == Sum(Deltas(feed[..n]))
                                 + DeltaOf(if n == 0 then None else Some(feed[n - 1]), feed[n])
  {
    assert Deltas(feed)[..|feed| - 1] == Deltas(feed[..|feed| - 1]);
  }

  lemma DeltaIsRise(prev: int, vtt: int)
    ensures DeltaOf(Some(prev), vtt) == (vtt - prev) + MaxInt(0, prev - vtt)
  {
  }

  /** Each delta is the rise since the reading before, and nothing when there is none; the first is the reading itself,
      up to fifty thousand. */
  lemma {:induction false} DeltaIsRiseOrNothing(feed: seq<int>, i: nat)
    requires i < |feed|
    ensures Deltas(feed)[i] == if i == 0 then if feed[0] <= 50_000 then feed[0] else 50_000
                               else if feed[i] > feed[i - 1] then feed[i] - feed[i - 1] else 0
  {
    if i < |feed| - 1 { DeltaIsRiseOrNothing(feed[..|feed| - 1], i); }
  }

  predicate Rises(feed: seq<int>) { forall i, j :: 0 <= i < j < |feed| ==> feed[i] <= feed[j] }

  lemma {:induction false} NoDipsIffRises(feed: seq<int>)
    ensures Dips(feed) >= 0 && (Dips(feed) == 0 <==> Rises(feed))
  {
    var n := |feed| - 1;
    if n > 0 {
      NoDipsIffRises(feed[..n]);
      if Rises(feed[..n]) && feed[n - 1] <= feed[n] {
        forall i, j | 0 <= i < j < |feed| ensures feed[i] <= feed[j] {
          assert i < n - 1 ==> feed[..n][i] <= feed[..n][n - 1];
        }
      }
    }
  }

  /** The deltas add up to the first, capped, and the net rise exactly when the feed never falls. */
  lemma DeltasAreRiseIff(feed: seq<int>)
    requires feed != []
    ensures Sum(Deltas(feed)) == MinInt(feed[0], MAX_FIRST_TICK_VOLUME) + (feed[|feed| - 1] - feed[0]) <==> Rises(feed)
  {
    DeltasTelescope(feed);
    NoDipsIffRises(feed);
  }

  lemma {:induction false} DeltasNonNegative(feed: seq<int>, i: nat)
    requires i < |feed| && 0 <= feed[0]
    ensures 0 <= Deltas(feed)[i]
  {
    if i < |feed| - 1 { DeltasNonNegative(feed[..|feed| - 1], i); }
  }

  // ---------------------------------------------------------------- the cached candle volume

  /** A run of messages with resets in between: before message i when `resets` has it. */
  method Follow(cache: MarketDataCache, tracker: VolumeDeltaTracker, key: string, feed: seq<int>, resets: set<nat>)
    requires tracker.Previous(key) == None && cache.GetVolume(key) == 0
    modifies cache, tracker
    ensures cache.GetVolume(key) == Cached(feed, resets)
  {
    for i := 0 to |feed|
      invariant tracker.Previous(key) == if i == 0 then None else Some(feed[i - 1])
      invariant cache.GetVolume(key) == Cached(feed[..i], resets)
    {
      assert feed[..i + 1][..i] == feed[..i];
      if i in resets {
        cache.ResetVolume(key);
      }
      var delta := tracker.GetDelta(key, feed[i]);
      cache.AccumulateVolume(key, delta);
    }
    assert feed[..|feed|] == feed;
  }

  function Cached(feed: seq<int>, resets: set<nat>): int {
    if feed == [] then 0
    else
      var n := |feed| - 1;
      (if n in resets then 0 else Cached(feed[..n], resets))
      + DeltaOf(if n == 0 then None else Some(feed[n - 1]), feed[n])
  }

  /** On a rising feed the cached volume is the rise since the message before the last reset. */
  lemma {:induction false} CachedIsRiseSinceReset(feed: seq<int>, resets: set<nat>, last: nat)
    requires 0 < last < |feed| && last in resets && forall i: nat :: last < i < |feed| ==> i !in resets
    requires Rises(feed)
    ensures Cached(feed, resets) == feed[|feed| - 1] - feed[last - 1]
  {
    var n := |feed| - 1;
    if last < n { CachedIsRiseSinceReset(feed[..n], resets, last); }
  }

  /** A negative delta can only be the first, and does not count. */
  lemma {:induction false} OfferedIsTelescoped(feed: seq<int>, ts: seq<Candles.Tick>)
    requires feed != [] && |ts| == |feed| && forall i :: 0 <= i < |ts| ==> ts[i].volume == Deltas(feed)[i]
    ensures MinuteRoutes.OfferedVolume(ts) ==
            MaxInt(0, MinInt(feed[0], MAX_FIRST_TICK_VOLUME)) + (feed[|feed| - 1] - feed[0]) + Dips(feed)
  {
    var n := |feed| - 1;
    if n == 0 {
      assert MinuteRoutes.OfferedVolume(ts[..0]) == 0;
    } else {
      assert Deltas(feed)[..n] == Deltas(feed[..n]);
      OfferedIsTelescoped(feed[..n], ts[..n]);
    }
  }

  /** From feed to candles: when every tick carries its delta, the one-minute candles and the pending one hold
      the rise of the feed with all its falls, up to the cap on the first tick, less exactly the volume of the
      ticks the aggregator dropped. */
  lemma {:induction false} FeedReachesCandles(feed: seq<int>, ts: seq<Candles.Tick>)
    requires feed != [] && |ts| == |feed| && forall i :: 0 <= i < |ts| ==> ts[i].volume == Deltas(feed)[i]
    ensures var o := MinuteRoutes.Run(ts);
            MtfResults.CandleVolume(o.emitted) + MinuteRoutes.PendingVolume(o.memory)
            == MaxInt(0, MinInt(feed[0], MAX_FIRST_TICK_VOLUME)) + (feed[|feed| - 1] - feed[0]) + Dips(feed)
               - Candles.TotalVolume(MinuteRoutes.Dropped(ts))
  {
    MinuteRoutes.OnlyDroppedIsMissing(ts);
    OfferedIsTelescoped(feed, ts);
  }

  /** Less the dropped ticks, the candles hold the capped first value and the net rise exactly when the feed never
      falls: the volume traded, once the first value is within the cap. */
  lemma CandlesHoldRiseIff(feed: seq<int>, ts: seq<Candles.Tick>)
    requires feed != [] && |ts| == |feed| && forall i :: 0 <= i < |ts| ==> ts[i].volume == Deltas(feed)[i]
    ensures var o := MinuteRoutes.Run(ts);
            MtfResults.CandleVolume(o.emitted) + MinuteRoutes.PendingVolume(o.memory)
            == MaxInt(0, MinInt(feed[0], MAX_FIRST_TICK_VOLUME)) + (feed[|feed| - 1] - feed[0])
               - Candles.TotalVolume(MinuteRoutes.Dropped(ts))
            <==> Rises(feed)
  {
    FeedReachesCandles(feed, ts);
    NoDipsIffRises(feed);
  }
}
