/** Whole runs of the one-minute aggregator, and its agreement with the tick cascade. */
module MinuteRoutes {
  import opened Common
  import opened Candles
  import opened MtfTheorems
  import opened MtfResults
  import MtfSpec
  import opened CandleAggregator

  /** A run over one symbol: final memory, emitted candles, and the ticks that were accepted, with the
      volume that counted. */
  datatype Outcome = Outcome(memory: Memory, emitted: seq<Candle>, accepted: seq<Tick>)

  function Counted(t: Tick): Tick { t.(volume := NonNegative(t.volume)) }

  function Run(ts: seq<Tick>): Outcome {
    if ts == [] then Outcome(FORGOTTEN, [], [])
    else
      var o := Run(ts[..|ts| - 1]);
      var t := ts[|ts| - 1];
      var (memory, closed) := TickStep(o.memory, t);
      Outcome(memory,
              if closed.Some? then o.emitted + [closed.value] else o.emitted,
              if Judge(o.memory, t).Accepted? then o.accepted + [Counted(t)] else o.accepted)
  }

  const MINUTE := MtfSpec.MINUTE

  /** The builder holds the ticks of the last bucket; everything before it has been emitted. */
  ghost predicate Tracks(o: Outcome) { TracksAs(o, Buckets(o.accepted, MINUTE)) }

  ghost predicate TracksAs(o: Outcome, bs: seq<Group>)
    requires bs == [] <==> o.accepted == []
  {
    && (o.accepted == [] ==> o.memory.building == None && o.memory.lastMs == None && o.emitted == [])
    && (o.accepted != [] ==>
          && o.memory.lastMs == Some(o.accepted[|o.accepted| - 1].ms)
          && o.memory.building.Some?
          && Built(o.memory.building.value, bs[|bs| - 1])
          && o.emitted == CandlesOf(bs[..|bs| - 1], MINUTE))
  }

  ghost predicate Built(b: Building, g: Group) {
    && b.minuteStart == Start(g, MINUTE) && b.ticks == |g| && b.low.Some?
    && ToCandle(b) == CandleOf(g, MINUTE)
  }

  lemma BuiltOne(t: Tick)
    ensures Built(WithTick(NewBuilding(MinuteStart(t.ms)), t.price, t.volume), [Counted(t)])
  {
    MinuteStartIsFloor(t.ms);
    assert TotalVolume([Counted(t)]) == TotalVolume([]) + NonNegative(t.volume);
  }

  lemma BuiltMore(b: Building, g: Group, t: Tick)
    requires Built(b, g)
    ensures Built(WithTick(b, t.price, t.volume), g + [Counted(t)])
  {
    ExtremesConcat(g, [Counted(t)]);
    TotalVolumeConcat(g, [Counted(t)]);
    assert TotalVolume([Counted(t)]) == TotalVolume([]) + NonNegative(t.volume);
  }

  /** What accepting a tick makes of the outcome. */
  function Accepting(o: Outcome, t: Tick): Outcome {
    var (memory, closed) := TickStep(o.memory, t);
    Outcome(memory, if closed.Some? then o.emitted + [closed.value] else o.emitted, o.accepted + [Counted(t)])
  }

  lemma FirstTracks(o: Outcome, t: Tick)
    requires o.accepted == [] && TracksAs(o, []) && Judge(o.memory, t).Accepted?
    ensures TracksAs(Accepting(o, t), [[Counted(t)]])
  {
    BuiltOne(t);
    assert [[Counted(t)]][..0] == [];
  }

  lemma SameMinuteTracks(o: Outcome, t: Tick, before: seq<Group>, last: Group)
    requires o.accepted != [] && TracksAs(o, before + [last]) && Judge(o.memory, t).Accepted?
    requires Start(last, MINUTE) == Start([Counted(t)], MINUTE)
    ensures TracksAs(Accepting(o, t), before + [last + [Counted(t)]])
  {
    assert (before + [last])[..|before|] == before && (before + [last + [Counted(t)]])[..|before|] == before;
    MinuteStartIsFloor(t.ms);
    BuiltMore(o.memory.building.value, last, t);
  }

  lemma NextMinuteTracks(o: Outcome, t: Tick, before: seq<Group>, last: Group)
    requires o.accepted != [] && TracksAs(o, before + [last]) && Judge(o.memory, t).Accepted?
    requires Start(last, MINUTE) != Start([Counted(t)], MINUTE)
    ensures TracksAs(Accepting(o, t), before + [last] + [[Counted(t)]])
  {
    var bs := before + [last];
    assert bs[..|before|] == before && (bs + [[Counted(t)]])[..|bs|] == bs;
    MinuteStartIsFloor(t.ms);
    BuiltOne(t);
    CandlesOfSnoc(before, last, MINUTE);
  }

  lemma AcceptedTracks(o: Outcome, t: Tick)
    requires Tracks(o) && Judge(o.memory, t).Accepted?
    ensures Tracks(Accepting(o, t))
  {
    BucketsSnoc(o.accepted, Counted(t), MINUTE);
    if o.accepted == [] {
      FirstTracks(o, t);
    } else {
      var bs := Buckets(o.accepted, MINUTE);
      var before, last := bs[..|bs| - 1], bs[|bs| - 1];
      assert bs == before + [last];
      if Start(last, MINUTE) == Start([Counted(t)], MINUTE) {
        SameMinuteTracks(o, t, before, last);
      } else {
        NextMinuteTracks(o, t, before, last);
      }
    }
  }

  lemma {:induction false} RunTracks(ts: seq<Tick>)
    ensures Tracks(Run(ts))
  {
    if ts != [] {
      RunTracks(ts[..|ts| - 1]);
      var o, t := Run(ts[..|ts| - 1]), ts[|ts| - 1];
      if Judge(o.memory, t).Accepted? { AcceptedTracks(o, t); }
    }
  }

  lemma LastAccepted(ts: seq<Tick>)
    ensures var o := Run(ts); o.accepted != [] ==> o.memory.lastMs == Some(o.accepted[|o.accepted| - 1].ms)
  {
    RunTracks(ts);
  }

  /** Accepted ticks are in time order, whatever arrives. */
  lemma {:induction false} AcceptedInOrder(ts: seq<Tick>)
    ensures Chronological(Run(ts).accepted)
  {
    if ts != [] {
      AcceptedInOrder(ts[..|ts| - 1]);
      LastAccepted(ts[..|ts| - 1]);
    }
  }

  // ---------------------------------------------------------------- which ticks are accepted

  /** The tick, price, volume and time, is among the last twenty of these. */
  ghost predicate AmongLastTwenty(t: Tick, ts: seq<Tick>) {
    exists k :: 0 <= k < |ts| && |ts| - 20 <= k && ts[k] == t
  }

  /** The ticks that repeat none of the last twenty kept before them. */
  ghost function Kept(ts: seq<Tick>): seq<Tick> {
    if ts == [] then []
    else
      var before, t := Kept(ts[..|ts| - 1]), ts[|ts| - 1];
      if AmongLastTwenty(t, before) then before else before + [t]
  }

  lemma LastTwenty(t: Tick, ts: seq<Tick>)
    ensures t in LastN(ts, RECENT) <==> AmongLastTwenty(t, ts)
  {
    var recent := LastN(ts, RECENT);
    var from := |ts| - |recent|;
    assert forall i :: 0 <= i < |recent| ==> recent[i] == ts[from + i];
    if AmongLastTwenty(t, ts) {
      var k :| 0 <= k < |ts| && |ts| - 20 <= k && ts[k] == t;
      assert recent[k - from] == t;
    }
  }

  lemma {:induction false} RecentAreKept(ts: seq<Tick>)
    ensures Run(ts).memory.recent == LastN(Kept(ts), RECENT)
  {
    if ts != [] {
      var us, t := ts[..|ts| - 1], ts[|ts| - 1];
      RecentAreKept(us);
      LastTwenty(t, Kept(us));
      AppendIsLastN(Kept(us), t, RECENT);
    }
  }

  /** A tick is accepted exactly when it repeats none of the last twenty ticks kept and is not earlier than any tick
      accepted so far; a negative volume then counts as none. */
  lemma {:induction false} AcceptedIff(ts: seq<Tick>, t: Tick)
    ensures var before := Run(ts).accepted;
            Run(ts + [t]).accepted
            == if !AmongLastTwenty(t, Kept(ts)) && forall k :: 0 <= k < |before| ==> before[k].ms <= t.ms
               then before + [Tick(t.price, if t.volume >= 0 then t.volume else 0, t.ms)] else before
  {
    assert (ts + [t])[..|ts|] == ts;
    RecentAreKept(ts);
    LastTwenty(t, Kept(ts));
    AcceptedInOrder(ts);
    RunTracks(ts);
  }

  /** The candle is the direct reading of the accepted ticks of its own minute. */
  ghost predicate IsDirect(c: Candle, accepted: seq<Tick>) {
    var window := Select(accepted, MINUTE, c.time);
    window != [] && c == Direct(window, c.time)
  }

  lemma WindowsAreDirect(ts: seq<Tick>, bs: seq<Group>)
    requires AreWindows(bs, ts, MINUTE)
    ensures var cs := CandlesOf(bs, MINUTE);
            && (forall i :: 0 <= i < |cs| ==> IsDirect(cs[i], ts))
            && (forall i, j :: 0 <= i < j < |cs| ==> cs[i].time < cs[j].time)
  {
    var cs := CandlesOf(bs, MINUTE);
    forall i | 0 <= i < |cs| ensures IsDirect(cs[i], ts) {
      assert cs[i] == CandleOf(bs[i], MINUTE);
    }
  }

  /** Every candle of the run: those emitted, then the pending one. */
  function AllCandles(o: Outcome): seq<Candle> {
    o.emitted + match o.memory.building case None => [] case Some(b) => [ToCandle(b)]
  }

  /** Emitted candles and the pending one are the direct candles of the accepted ticks, minute by minute,
      in strictly increasing minutes. */
  lemma EmittedAreDirect(ts: seq<Tick>)
    ensures var o := Run(ts); var cs := AllCandles(o);
            && (forall i :: 0 <= i < |cs| ==> IsDirect(cs[i], o.accepted))
            && (forall i, j :: 0 <= i < j < |cs| ==> cs[i].time < cs[j].time)
            && (o.accepted != [] ==> |cs| == |o.emitted| + 1)
  {
    var o := Run(ts);
    RunTracks(ts);
    AcceptedInOrder(ts);
    BucketsAreWindows(o.accepted, MINUTE);
    AllAreBuckets(o);
    WindowsAreDirect(o.accepted, Buckets(o.accepted, MINUTE));
  }

  lemma LastIsBuilding(bs: seq<Group>, c: Candle)
    requires bs != [] && c == CandleOf(bs[|bs| - 1], MINUTE)
    ensures CandlesOf(bs, MINUTE) == CandlesOf(bs[..|bs| - 1], MINUTE) + [c]
  {
    CandlesOfSnoc(bs[..|bs| - 1], bs[|bs| - 1], MINUTE);
    assert bs == bs[..|bs| - 1] + [bs[|bs| - 1]];
  }

  lemma {:induction false} AllAreBuckets(o: Outcome)
    requires Tracks(o)
    ensures AllCandles(o) == CandlesOf(Buckets(o.accepted, MINUTE), MINUTE)
  {
    if o.accepted != [] {
      LastIsBuilding(Buckets(o.accepted, MINUTE), ToCandle(o.memory.building.value));
    }
  }

  function PendingVolume(m: Memory): int {
    match m.building case None => 0 case Some(b) => b.volume
  }

  lemma {:induction false} BucketsFlat(ts: seq<Tick>, tf: nat)
    ensures Flat(Buckets(ts, tf)) == ts
  {
    if ts != [] {
      var us, t := ts[..|ts| - 1], ts[|ts| - 1];
      BucketsFlat(us, tf);
      var bs := Buckets(us, tf);
      if bs != [] {
        var before, last := bs[..|bs| - 1], bs[|bs| - 1];
        Associate(Flat(before), last, [t]);
        assert (before + [last + [t]])[..|before|] == before;
      }
      assert (bs + [[t]])[..|bs|] == bs;
    }
  }

  /** Emitted volumes and the pending volume add up to the accepted, non-negative tick volumes. */
  lemma {:induction false} MinuteVolumeConserved(ts: seq<Tick>)
    ensures var o := Run(ts); CandleVolume(o.emitted) + PendingVolume(o.memory) == TotalVolume(o.accepted)
  {
    var o := Run(ts);
    RunTracks(ts);
    var bs := Buckets(o.accepted, MINUTE);
    if o.accepted != [] {
      var before, last := bs[..|bs| - 1], bs[|bs| - 1];
      BucketsFlat(o.accepted, MINUTE);
      GroupVolumes(before, MINUTE);
      TotalVolumeConcat(Flat(before), last);
      assert ToCandle(o.memory.building.value).volume == TotalVolume(last);
    }
  }

  /** The volume that would count if every tick were accepted. */
  function OfferedVolume(ts: seq<Tick>): int {
    if ts == [] then 0 else OfferedVolume(ts[..|ts| - 1]) + NonNegative(ts[|ts| - 1].volume)
  }

  /** The ticks dropped as duplicate or out of order, with the volume that would have counted. */
  function Dropped(ts: seq<Tick>): seq<Tick> {
    if ts == [] then []
    else
      var us, t := ts[..|ts| - 1], ts[|ts| - 1];
      Dropped(us) + if Judge(Run(us).memory, t).Accepted? then [] else [Counted(t)]
  }

  /** Candles and pending candle hold the volume offered, less exactly that of the dropped ticks. */
  lemma {:induction false} OnlyDroppedIsMissing(ts: seq<Tick>)
    ensures var o := Run(ts);
            CandleVolume(o.emitted) + PendingVolume(o.memory) == OfferedVolume(ts) - TotalVolume(Dropped(ts))
  {
    MinuteVolumeConserved(ts);
    AcceptedOrDropped(ts);
  }

  lemma {:induction false} AcceptedOrDropped(ts: seq<Tick>)
    ensures TotalVolume(Run(ts).accepted) + TotalVolume(Dropped(ts)) == OfferedVolume(ts)
  {
    if ts != [] {
      var us, t := ts[..|ts| - 1], ts[|ts| - 1];
      AcceptedOrDropped(us);
      TotalVolumeConcat(Run(us).accepted, [Counted(t)]);
      TotalVolumeConcat(Dropped(us), [Counted(t)]);
      assert Dropped(us) + [] == Dropped(us);
      assert TotalVolume([Counted(t)]) == TotalVolume([]) + NonNegative(t.volume);
    }
  }

  // ---------------------------------------------------------------- the two routes to five minutes

  /** Feeding the groups to a level makes exact merges only. */
  predicate FeedsExactly(gs: seq<Group>, tf: nat) {
    gs == [] || (FeedsExactly(gs[..|gs| - 1], tf) && AddsExactly(Feed(gs[..|gs| - 1], tf), gs[|gs| - 1], tf))
  }

  lemma {:induction false} MinutesImage(gs: seq<Group>)
    requires FeedsExactly(gs, MINUTE + 1)
    ensures var o := MtfSpec.RunMinutes(CandlesOf(gs, MINUTE));
            && o.levels[MINUTE + 1] == Image(Feed(gs, MINUTE + 1), MINUTE + 1)
            && o.fiveMinute == CandlesOf(Feed(gs, MINUTE + 1).done, MINUTE + 1)
  {
    if gs != [] {
      var hs, g := gs[..|gs| - 1], gs[|gs| - 1];
      assert gs == hs + [g];
      CandlesOfSnoc(hs, g, MINUTE);
      assert CandlesOf(gs, MINUTE)[..|hs|] == CandlesOf(hs, MINUTE);
      MinutesImage(hs);
      var p := Feed(hs, MINUTE + 1);
      AggregateImage(p, g, MINUTE + 1);
      if Crosses(p, g, MINUTE + 1) { CandlesOfSnoc(p.done, p.open, MINUTE + 1); }
    }
  }

  lemma {:induction false} FeedDonePrefix(gs: seq<Group>, n: nat, tf: nat)
    requires n <= |gs|
    ensures Feed(gs[..n], tf).done <= Feed(gs, tf).done
    decreases |gs|
  {
    if n == |gs| {
      assert gs[..n] == gs;
    } else {
      FeedDonePrefix(gs[..|gs| - 1], n, tf);
      assert gs[..|gs| - 1][..n] == gs[..n];
    }
  }

  lemma {:induction false} BucketsPositive(ts: seq<Tick>, tf: nat)
    requires Positive(ts)
    ensures AllPositive(Buckets(ts, tf))
  {
    if ts != [] { BucketsPositive(ts[..|ts| - 1], tf); }
  }

  lemma DoneMinutes(acc: seq<Tick>)
    requires acc != []
    ensures var (done, bs) := (PileAt(acc, MINUTE).done, Buckets(acc, MINUTE));
            |done| < |bs| && done == bs[..|bs| - 1][..|done|]
  {
    DoneIsPrefix(acc, MINUTE);
  }

  /** The completed minutes of the accepted ticks. */
  function Minutes(acc: seq<Tick>): seq<Group> {
    var bs := Buckets(acc, MINUTE);
    if bs == [] then [] else bs[..|bs| - 1]
  }

  /** When both routes make exact merges only, five-minute candles cascaded from the accepted ticks are, element
      for element, the first ones built from the emitted one-minute candles. */
  lemma {:induction false} RoutesCommute(ts: seq<Tick>)
    requires MergesAreExact(Run(ts).accepted) && FeedsExactly(Minutes(Run(ts).accepted), MINUTE + 1)
    ensures MtfSpec.Run(Run(ts).accepted).log[MINUTE + 1] <= MtfSpec.RunMinutes(Run(ts).emitted).fiveMinute
  {
    var acc := Run(ts).accepted;
    RunTracks(ts);
    CascadeRefinesPiles(acc);
    if acc == [] {
      EmptyPile(MINUTE + 1);
    } else {
      DoneMinutes(acc);
      CommuteFrom(PileAt(acc, MINUTE).done, Minutes(acc));
    }
  }

  lemma {:induction false} CommuteFrom(done: seq<Group>, minutes: seq<Group>)
    requires FeedsExactly(minutes, MINUTE + 1) && |done| <= |minutes| && done == minutes[..|done|]
    ensures CandlesOf(Feed(done, MINUTE + 1).done, MINUTE + 1)
         <= MtfSpec.RunMinutes(CandlesOf(minutes, MINUTE)).fiveMinute
  {
    MinutesImage(minutes);
    FeedDonePrefix(minutes, |done|, MINUTE + 1);
  }

  lemma {:induction false} PositiveFeedsExactly(gs: seq<Group>, tf: nat)
    requires AllPositive(gs)
    ensures FeedsExactly(gs, tf)
  {
    if gs != [] {
      var hs := gs[..|gs| - 1];
      PositiveFeedsExactly(hs, tf);
      FeedPositive(hs, tf);
      if Feed(hs, tf).open != [] { PositiveMergesExactly(Feed(hs, tf).open, gs[|gs| - 1]); }
    }
  }

  /** With positive prices both routes do. */
  lemma PositiveRoutesCommute(ts: seq<Tick>)
    requires Positive(Run(ts).accepted)
    ensures MtfSpec.Run(Run(ts).accepted).log[MINUTE + 1] <= MtfSpec.RunMinutes(Run(ts).emitted).fiveMinute
  {
    var acc := Run(ts).accepted;
    PositiveRunsMergeExactly(acc);
    BucketsPositive(acc, MINUTE);
    PositiveFeedsExactly(Minutes(acc), MINUTE + 1);
    RoutesCommute(ts);
  }
}
