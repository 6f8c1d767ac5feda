/** What the cascade guarantees about the stored candles, for every run of ticks. */
module MtfResults {
  import opened Common
  import opened Candles
  import opened MtfSpec
  import opened MtfTheorems

  function Flat(gs: seq<Group>): seq<Tick> {
    if gs == [] then [] else Flat(gs[..|gs| - 1]) + gs[|gs| - 1]
  }

  predicate Uniform(g: seq<Tick>, tf: nat) {
    forall i :: 0 <= i < |g| ==> FloorTo(Sec(g[i]), tf) == FloorTo(Sec(g[0]), tf)
  }

  predicate AllUniform(gs: seq<Group>, tf: nat) {
    forall i :: 0 <= i < |gs| ==> Uniform(gs[i], tf)
  }

  lemma UniformCoarser(g: seq<Tick>, fine: nat, tf: nat)
    requires fine <= tf < TIMEFRAMES && Uniform(g, fine)
    ensures Uniform(g, tf)
    decreases tf - fine
  {
    if fine < tf {
      forall i | 0 <= i < |g| ensures FloorTo(Sec(g[i]), fine + 1) == FloorTo(Sec(g[0]), fine + 1) {
        NestedFloor(Sec(g[i]), fine + 1);
        NestedFloor(Sec(g[0]), fine + 1);
      }
      UniformCoarser(g, fine + 1, tf);
    }
  }

  lemma {:induction false} FeedUniform(gs: seq<Group>, tf: nat)
    requires AllUniform(gs, tf)
    ensures AllUniform(Feed(gs, tf).done, tf) && Uniform(Feed(gs, tf).open, tf)
  {
    if gs != [] { FeedUniform(gs[..|gs| - 1], tf); }
  }

  lemma {:induction false} PileUniform(ts: seq<Tick>, tf: nat)
    requires tf < TIMEFRAMES
    ensures AllUniform(PileAt(ts, tf).done, tf) && Uniform(PileAt(ts, tf).open, tf)
    decreases tf, 1
  {
    if tf == 0 {
      FeedUniform(Singles(ts), 0);
    } else {
      DoneUniformAbove(ts, tf);
      FeedUniform(PileAt(ts, tf - 1).done, tf);
    }
  }

  lemma DoneUniformAbove(ts: seq<Tick>, tf: nat)
    requires 1 <= tf < TIMEFRAMES
    ensures AllUniform(PileAt(ts, tf - 1).done, tf)
    decreases tf, 0
  {
    PileUniform(ts, tf - 1);
    var gs := PileAt(ts, tf - 1).done;
    forall i | 0 <= i < |gs| ensures Uniform(gs[i], tf) { UniformCoarser(gs[i], tf - 1, tf); }
  }

  // ---------------------------------------------------------------- buckets of a concatenation

  function Joined(bs: seq<Group>, g: Group, tf: nat): seq<Group> {
    if bs != [] && Start(bs[|bs| - 1], tf) == Start(g, tf)
    then bs[..|bs| - 1] + [bs[|bs| - 1] + g]
    else bs + [g]
  }

  lemma BucketsSnoc(ts: seq<Tick>, t: Tick, tf: nat)
    ensures Buckets(ts + [t], tf) == Joined(Buckets(ts, tf), [t], tf)
  {
    assert (ts + [t])[..|ts|] == ts;
  }

  lemma JoinedTwice(bs: seq<Group>, g: Group, t: Tick, tf: nat)
    requires FloorTo(Sec(t), tf) == Start(g, tf)
    ensures Joined(Joined(bs, g, tf), [t], tf) == Joined(bs, g + [t], tf)
  {
    if bs != [] { Associate(bs[|bs| - 1], g, [t]); }
  }

  lemma {:induction false} BucketsOfGroup(ts: seq<Tick>, g: Group, tf: nat)
    requires Uniform(g, tf)
    ensures Buckets(ts + g, tf) == Joined(Buckets(ts, tf), g, tf)
    decreases |g|
  {
    var h, t := g[..|g| - 1], g[|g| - 1];
    assert g == h + [t];
    if h == [] {
      BucketsSnoc(ts, t, tf);
    } else {
      BucketsOfGroup(ts, h, tf);
      BucketsSnoc(ts + h, t, tf);
      Associate(ts, h, [t]);
      JoinedTwice(Buckets(ts, tf), h, t, tf);
    }
  }

  lemma {:induction false} BucketsPrefix(a: seq<Tick>, b: seq<Tick>, tf: nat)
    requires a != []
    ensures var (p, q) := (Buckets(a, tf), Buckets(a + b, tf));
            |p| <= |q| && q[..|p| - 1] == p[..|p| - 1]
    decreases |b|
  {
    if b == [] {
      assert a + b == a;
    } else {
      assert (a + b)[..|a + b| - 1] == a + b[..|b| - 1];
      BucketsPrefix(a, b[..|b| - 1], tf);
    }
  }

  /** Folding groups into a level is exactly bucketing their ticks. */
  lemma {:induction false} FeedIsBuckets(gs: seq<Group>, tf: nat)
    requires gs != [] && AllUniform(gs, tf)
    ensures Feed(gs, tf).done + [Feed(gs, tf).open] == Buckets(Flat(gs), tf)
  {
    var hs, g := gs[..|gs| - 1], gs[|gs| - 1];
    BucketsOfGroup(Flat(hs), g, tf);
    if hs == [] {
      assert Feed(hs, tf) == Pile([], []);
      assert Flat(hs) + g == g && [] + g == g;
    } else {
      FeedIsBuckets(hs, tf);
      var p := Feed(hs, tf);
      FeedUniform(hs, tf);
      assert (p.done + [p.open])[..|p.done|] == p.done;
    }
  }

  lemma {:induction false} FlatSingles(ts: seq<Tick>)
    ensures Flat(Singles(ts)) == ts
  {
    if ts != [] {
      assert Singles(ts)[..|ts| - 1] == Singles(ts[..|ts| - 1]);
      FlatSingles(ts[..|ts| - 1]);
    }
  }

  lemma {:induction false} FlatFeed(gs: seq<Group>, tf: nat)
    ensures Flat(Feed(gs, tf).done) + Feed(gs, tf).open == Flat(gs)
  {
    if gs != [] {
      var p, g := Feed(gs[..|gs| - 1], tf), gs[|gs| - 1];
      FlatFeed(gs[..|gs| - 1], tf);
      if Crosses(p, g, tf) {
        assert (p.done + [p.open])[..|p.done|] == p.done;
      }
      assert Flat(p.done) + (p.open + g) == Flat(p.done) + p.open + g;
    }
  }

  // ---------------------------------------------------------------- the stream partition

  /** The ticks of the open candles at tf, tf-1, ..., "1s", in that order. */
  function OpenTicks(ts: seq<Tick>, tf: nat): seq<Tick> {
    if tf == 0 then PileAt(ts, 0).open else PileAt(ts, tf).open + OpenTicks(ts, tf - 1)
  }

  /** No tick is lost or counted twice: at every timeframe the completed candles followed by the open
      candles at and below it partition the stream, in order. */
  lemma {:induction false} StreamPartition(ts: seq<Tick>, tf: nat)
    ensures ts == Flat(PileAt(ts, tf).done) + OpenTicks(ts, tf)
  {
    if tf == 0 {
      FlatSingles(ts);
      FlatFeed(Singles(ts), 0);
    } else {
      StreamPartition(ts, tf - 1);
      FlatFeed(PileAt(ts, tf - 1).done, tf);
      var p := PileAt(ts, tf);
      assert Flat(p.done) + p.open + OpenTicks(ts, tf - 1) == Flat(p.done) + (p.open + OpenTicks(ts, tf - 1));
    }
  }

  lemma OneMoreBucket(a: seq<Tick>, g: seq<Tick>, fine: nat, tf: nat)
    requires fine <= tf < TIMEFRAMES && Uniform(g, fine)
    ensures |Buckets(a + g, tf)| <= |Buckets(a, tf)| + 1
  {
    UniformCoarser(g, fine, tf);
    if g != [] { BucketsOfGroup(a, g, tf); } else { assert a + g == a; }
  }

  lemma {:induction false} FewOpenBuckets(ts: seq<Tick>, a: seq<Tick>, j: nat, tf: nat, us: seq<Tick>)
    requires j <= tf < TIMEFRAMES && us == a + OpenTicks(ts, j)
    ensures |Buckets(us, tf)| <= |Buckets(a, tf)| + j + 1
    decreases j
  {
    var g := PileAt(ts, j).open;
    PileUniform(ts, j);
    OneMoreBucket(a, g, j, tf);
    if j > 0 {
      Associate(a, g, OpenTicks(ts, j - 1));
      FewOpenBuckets(ts, a + g, j - 1, tf, us);
    }
  }

  lemma {:induction false} DoneAtBottom(ts: seq<Tick>)
    requires ts != []
    ensures Buckets(ts, 0) == PileAt(ts, 0).done + [PileAt(ts, 0).open]
  {
    FlatSingles(ts);
    FeedIsBuckets(Singles(ts), 0);
  }

  lemma {:induction false} CloseAbove(ts: seq<Tick>, tf: nat)
    requires 1 <= tf < TIMEFRAMES
    ensures |Buckets(ts, tf)| <= |Buckets(Flat(PileAt(ts, tf - 1).done), tf)| + tf
  {
    StreamPartition(ts, tf - 1);
    FewOpenBuckets(ts, Flat(PileAt(ts, tf - 1).done), tf - 1, tf, ts);
  }

  lemma {:induction false} PrefixAbove(ts: seq<Tick>, tf: nat)
    requires ts != [] && 1 <= tf < TIMEFRAMES
    ensures var below := PileAt(ts, tf - 1).done;
            var (d, a, b) := (Feed(below, tf).done, Buckets(Flat(below), tf), Buckets(ts, tf));
            d <= b && |d| < |b| && |a| <= |d| + 1
  {
    StreamPartition(ts, tf - 1);
    DoneUniformAbove(ts, tf);
    FedIsPrefix(PileAt(ts, tf - 1).done, OpenTicks(ts, tf - 1), tf);
  }

  /** The completed groups of a timeframe are the first buckets of the stream, all but the last few. */
  lemma {:induction false} DoneIsPrefix(ts: seq<Tick>, tf: nat)
    requires tf < TIMEFRAMES
    ensures var (d, b) := (PileAt(ts, tf).done, Buckets(ts, tf));
            && d <= b
            && |b| <= |d| + tf + 1
            && (ts != [] ==> |d| < |b|)
  {
    if ts == [] {
      EmptyPile(tf);
    } else if tf == 0 {
      DoneAtBottom(ts);
    } else {
      CloseAbove(ts, tf);
      PrefixAbove(ts, tf);
    }
  }

  lemma {:induction false} FedIsPrefix(below: seq<Group>, rest: seq<Tick>, tf: nat)
    requires AllUniform(below, tf) && Flat(below) + rest != []
    ensures var (d, a, b) := (Feed(below, tf).done, Buckets(Flat(below), tf), Buckets(Flat(below) + rest, tf));
            d <= b && |d| < |b| && |a| <= |d| + 1
  {
    if below != [] {
      FeedIsBuckets(below, tf);
      var d, open := Feed(below, tf).done, Feed(below, tf).open;
      var a := Buckets(Flat(below), tf);
      assert a == d + [open];
      assert a[..|a| - 1] == d;
      BucketsPrefix(Flat(below), rest, tf);
    }
  }

  // ---------------------------------------------------------------- main results

  function CandleVolume(cs: seq<Candle>): int {
    if cs == [] then 0 else CandleVolume(cs[..|cs| - 1]) + cs[|cs| - 1].volume
  }

  /** Volume of the candles being built at tf and at every finer timeframe. */
  function OpenVolume(ls: seq<Level>, tf: nat): int
    requires tf < |ls|
  {
    (if ls[tf].current.Some? then ls[tf].current.value.volume else 0) + (if tf == 0 then 0 else OpenVolume(ls, tf - 1))
  }

  /** For ticks in any order: what a timeframe completed is, candle for candle, what a direct aggregator of
      that timeframe would build; it lags by at most tf + 1 windows, and the deque keeps the last 200. */
  lemma {:induction false} CascadeRefinesBuckets(ts: seq<Tick>, tf: nat)
    requires MergesAreExact(ts) && tf < TIMEFRAMES
    ensures var (o, direct) := (Run(ts), CandlesOf(Buckets(ts, tf), tf));
            && o.log[tf] <= direct
            && |direct| <= |o.log[tf]| + tf + 1
            && (ts != [] ==> |o.log[tf]| < |direct|)
            && o.levels[tf].history == LastN(o.log[tf], MAX_HISTORY)
  {
    CascadeRefinesPiles(ts);
    DoneIsPrefix(ts, tf);
  }

  lemma {:induction false} GroupVolumes(gs: seq<Group>, tf: nat)
    ensures CandleVolume(CandlesOf(gs, tf)) == TotalVolume(Flat(gs))
  {
    if gs != [] {
      var hs, g := gs[..|gs| - 1], gs[|gs| - 1];
      GroupVolumes(hs, tf);
      assert gs == hs + [g];
      CandlesOfSnoc(hs, g, tf);
      assert CandlesOf(gs, tf)[..|hs|] == CandlesOf(hs, tf);
      TotalVolumeConcat(Flat(hs), g);
    }
  }

  lemma {:induction false} OpenVolumes(ts: seq<Tick>, tf: nat)
    requires tf < TIMEFRAMES
    ensures OpenVolume(Images(Piles(ts)), tf) == TotalVolume(OpenTicks(ts, tf))
  {
    assert Images(Piles(ts))[tf] == Image(PileAt(ts, tf), tf);
    if tf > 0 {
      OpenVolumes(ts, tf - 1);
      TotalVolumeConcat(PileAt(ts, tf).open, OpenTicks(ts, tf - 1));
    }
  }

  /** The same ticks, all at price one: rolling over and volumes do not look at prices. */
  function Repriced(ts: seq<Tick>): (r: seq<Tick>)
    ensures |r| == |ts| && forall i :: 0 <= i < |ts| ==> r[i] == ts[i].(price := 1.0)
  {
    seq(|ts|, i requires 0 <= i < |ts| => ts[i].(price := 1.0))
  }

  predicate Alike(c: Candle, d: Candle) { c.time == d.time && c.volume == d.volume }

  ghost predicate AllAlike(cs: seq<Candle>, ds: seq<Candle>) {
    |cs| == |ds| && forall i :: 0 <= i < |cs| ==> Alike(cs[i], ds[i])
  }

  predicate MaybeAlike(c: Option<Candle>, d: Option<Candle>) {
    if c.None? then d.None? else d.Some? && Alike(c.value, d.value)
  }

  ghost predicate LevelsAlike(ls: seq<Level>, ms: seq<Level>) {
    |ls| == |ms| == TIMEFRAMES && forall k :: 0 <= k < TIMEFRAMES ==> MaybeAlike(ls[k].current, ms[k].current)
  }

  lemma LevelAlike(ls: seq<Level>, ms: seq<Level>, tf: nat, l: Level, m: Level)
    requires LevelsAlike(ls, ms) && tf < TIMEFRAMES && MaybeAlike(l.current, m.current)
    ensures LevelsAlike(ls[tf := l], ms[tf := m])
  {
  }

  lemma NextAlike(l: Level, m: Level, tf: nat, c: Candle, d: Candle)
    requires MaybeAlike(l.current, m.current) && Alike(c, d)
    ensures var (l', closed) := AggregateLevel(l, tf, c);
            var (m', closed') := AggregateLevel(m, tf, d);
            MaybeAlike(l'.current, m'.current) && MaybeAlike(closed, closed')
  {
  }

  lemma OneMoreAlike(c: Candle, cs: seq<Candle>, d: Candle, ds: seq<Candle>)
    requires Alike(c, d) && AllAlike(cs, ds)
    ensures AllAlike([c] + cs, [d] + ds)
  {
  }

  lemma {:induction false} CascadeAlike(ls: seq<Level>, ms: seq<Level>, tf: nat, c: Candle, d: Candle)
    requires LevelsAlike(ls, ms) && tf <= TIMEFRAMES && Alike(c, d)
    ensures var (l, cs) := Cascade(ls, tf, c); var (m, ds) := Cascade(ms, tf, d); LevelsAlike(l, m) && AllAlike(cs, ds)
    decreases TIMEFRAMES - tf
  {
    if tf < TIMEFRAMES {
      var (l, closed) := AggregateLevel(ls[tf], tf, c);
      var (m, closed') := AggregateLevel(ms[tf], tf, d);
      NextAlike(ls[tf], ms[tf], tf, c, d);
      LevelAlike(ls, ms, tf, l, m);
      if closed.Some? {
        CascadeAlike(ls[tf := l], ms[tf := m], tf + 1, closed.value, closed'.value);
        OneMoreAlike(closed.value, Cascade(ls[tf := l], tf + 1, closed.value).1,
                     closed'.value, Cascade(ms[tf := m], tf + 1, closed'.value).1);
      }
    }
  }

  lemma FirstAlike(l: Level, m: Level, t: Tick, u: Tick)
    requires u == t.(price := u.price) && MaybeAlike(l.current, m.current)
    ensures var (l', c) := UpdateLevel(l, 0, t.price, t.volume, Sec(t));
            var (m', d) := UpdateLevel(m, 0, u.price, u.volume, Sec(u));
            MaybeAlike(l'.current, m'.current) && MaybeAlike(c, d)
  {
  }

  lemma {:induction false} TickAlike(ls: seq<Level>, ms: seq<Level>, t: Tick, u: Tick)
    requires LevelsAlike(ls, ms) && u == t.(price := u.price)
    ensures var (l, cs) := TickStep(ls, t); var (m, ds) := TickStep(ms, u); LevelsAlike(l, m) && AllAlike(cs, ds)
  {
    var (l, closed) := UpdateLevel(ls[0], 0, t.price, t.volume, Sec(t));
    var (m, closed') := UpdateLevel(ms[0], 0, u.price, u.volume, Sec(u));
    FirstAlike(ls[0], ms[0], t, u);
    LevelAlike(ls, ms, 0, l, m);
    if closed.Some? {
      CascadeAlike(ls[0 := l], ms[0 := m], 1, closed.value, closed'.value);
      OneMoreAlike(closed.value, Cascade(ls[0 := l], 1, closed.value).1,
                   closed'.value, Cascade(ms[0 := m], 1, closed'.value).1);
    }
  }

  lemma {:induction false} RunsAlike(ts: seq<Tick>)
    ensures var (o, r) := (Run(ts), Run(Repriced(ts)));
            LevelsAlike(o.levels, r.levels) && forall k :: 0 <= k < TIMEFRAMES ==> AllAlike(o.log[k], r.log[k])
  {
    if ts != [] {
      var us, t := ts[..|ts| - 1], ts[|ts| - 1];
      RunsAlike(us);
      assert Repriced(ts)[..|us|] == Repriced(us);
      TickAlike(Run(us).levels, Run(Repriced(us)).levels, t, t.(price := 1.0));
    }
  }

  lemma {:induction false} AlikeVolumes(cs: seq<Candle>, ds: seq<Candle>)
    requires AllAlike(cs, ds)
    ensures CandleVolume(cs) == CandleVolume(ds)
  {
    if cs != [] { AlikeVolumes(cs[..|cs| - 1], ds[..|ds| - 1]); }
  }

  lemma {:induction false} AlikeOpenVolumes(ls: seq<Level>, ms: seq<Level>, tf: nat)
    requires LevelsAlike(ls, ms) && tf < TIMEFRAMES
    ensures OpenVolume(ls, tf) == OpenVolume(ms, tf)
  {
    if tf > 0 { AlikeOpenVolumes(ls, ms, tf - 1); }
  }

  lemma {:induction false} RepricedVolume(ts: seq<Tick>)
    ensures TotalVolume(Repriced(ts)) == TotalVolume(ts)
  {
    if ts != [] {
      RepricedVolume(ts[..|ts| - 1]);
      assert Repriced(ts)[..|ts| - 1] == Repriced(ts[..|ts| - 1]);
    }
  }

  lemma PilesKeepVolume(ts: seq<Tick>, tf: nat)
    requires Positive(ts) && tf < TIMEFRAMES
    ensures CandleVolume(Run(ts).log[tf]) + OpenVolume(Run(ts).levels, tf) == TotalVolume(ts)
  {
    PositiveRunsMergeExactly(ts);
    CascadeRefinesPiles(ts);
    StreamPartition(ts, tf);
    GroupVolumes(PileAt(ts, tf).done, tf);
    OpenVolumes(ts, tf);
    TotalVolumeConcat(Flat(PileAt(ts, tf).done), OpenTicks(ts, tf));
  }

  /** Total volume is conserved at every timeframe, whatever the prices. */
  lemma {:induction false} VolumeConserved(ts: seq<Tick>, tf: nat)
    requires tf < TIMEFRAMES
    ensures CandleVolume(Run(ts).log[tf]) + OpenVolume(Run(ts).levels, tf) == TotalVolume(ts)
  {
    var rs := Repriced(ts);
    PilesKeepVolume(rs, tf);
    RunsAlike(ts);
    AlikeVolumes(Run(ts).log[tf], Run(rs).log[tf]);
    AlikeOpenVolumes(Run(ts).levels, Run(rs).levels, tf);
    RepricedVolume(ts);
  }

  lemma {:induction false} SelectNone(ts: seq<Tick>, tf: nat, start: int)
    requires forall i :: 0 <= i < |ts| ==> FloorTo(Sec(ts[i]), tf) != start
    ensures Select(ts, tf, start) == []
  {
    if ts != [] { SelectNone(ts[..|ts| - 1], tf, start); }
  }

  predicate StartsIncrease(bs: seq<Group>, tf: nat) {
    forall i, j :: 0 <= i < j < |bs| ==> Start(bs[i], tf) < Start(bs[j], tf)
  }

  lemma {:induction false} LastBucketIsCurrent(ts: seq<Tick>, tf: nat)
    requires ts != []
    ensures var bs := Buckets(ts, tf); Start(bs[|bs| - 1], tf) == FloorTo(Sec(ts[|ts| - 1]), tf)
  {}

  lemma NothingYet(us: seq<Tick>, t: Tick, tf: nat)
    requires Chronological(us + [t]) && us != []
    requires FloorTo(Sec(us[|us| - 1]), tf) != FloorTo(Sec(t), tf)
    ensures FloorTo(Sec(us[|us| - 1]), tf) < FloorTo(Sec(t), tf)
    ensures Select(us, tf, FloorTo(Sec(t), tf)) == []
  {
    var s := us[|us| - 1];
    assert (us + [t])[|us| - 1] == s && (us + [t])[|us|] == t;
    FloorMonotone(Sec(s), Sec(t), tf);
    forall i | 0 <= i < |us| ensures FloorTo(Sec(us[i]), tf) != FloorTo(Sec(t), tf) {
      assert (us + [t])[i] == us[i];
      FloorMonotone(Sec(us[i]), Sec(s), tf);
    }
    SelectNone(us, tf, FloorTo(Sec(t), tf));
  }

  ghost predicate AreWindows(bs: seq<Group>, ts: seq<Tick>, tf: nat) {
    && StartsIncrease(bs, tf)
    && forall i :: 0 <= i < |bs| ==> bs[i] == Select(ts, tf, Start(bs[i], tf))
  }

  lemma SelectSnoc(us: seq<Tick>, t: Tick, tf: nat, start: int)
    ensures Select(us + [t], tf, start) ==
            if FloorTo(Sec(t), tf) == start then Select(us, tf, start) + [t] else Select(us, tf, start)
  {
    assert (us + [t])[..|us|] == us;
  }

  lemma NextWindow(bs: seq<Group>, us: seq<Tick>, t: Tick, tf: nat)
    requires AreWindows(bs, us, tf) && Select(us, tf, FloorTo(Sec(t), tf)) == []
    requires bs != [] ==> Start(bs[|bs| - 1], tf) < FloorTo(Sec(t), tf)
    ensures AreWindows(bs + [[t]], us + [t], tf)
  {
    var cs := bs + [[t]];
    forall i | 0 <= i < |cs| ensures cs[i] == Select(us + [t], tf, Start(cs[i], tf)) {
      SelectSnoc(us, t, tf, Start(cs[i], tf));
    }
  }

  lemma SameWindow(bs: seq<Group>, us: seq<Tick>, t: Tick, tf: nat)
    requires bs != [] && AreWindows(bs, us, tf) && Start(bs[|bs| - 1], tf) == FloorTo(Sec(t), tf)
    ensures AreWindows(bs[..|bs| - 1] + [bs[|bs| - 1] + [t]], us + [t], tf)
  {
    var cs := bs[..|bs| - 1] + [bs[|bs| - 1] + [t]];
    assert forall i :: 0 <= i < |cs| ==> Start(cs[i], tf) == Start(bs[i], tf);
    forall i | 0 <= i < |cs| ensures cs[i] == Select(us + [t], tf, Start(cs[i], tf)) {
      SelectSnoc(us, t, tf, Start(cs[i], tf));
    }
  }

  lemma {:induction false} WindowStep(us: seq<Tick>, t: Tick, tf: nat)
    requires Chronological(us + [t]) && AreWindows(Buckets(us, tf), us, tf)
    ensures AreWindows(Buckets(us + [t], tf), us + [t], tf)
  {
    var bs := Buckets(us, tf);
    BucketsSnoc(us, t, tf);
    if us == [] {
      NextWindow(bs, us, t, tf);
    } else {
      LastBucketIsCurrent(us, tf);
      if Start(bs[|bs| - 1], tf) == FloorTo(Sec(t), tf) {
        SameWindow(bs, us, t, tf);
      } else {
        NothingYet(us, t, tf);
        NextWindow(bs, us, t, tf);
      }
    }
  }

  /** On a chronological stream the runs are the time windows. */
  lemma {:induction false} BucketsAreWindows(ts: seq<Tick>, tf: nat)
    requires Chronological(ts)
    ensures AreWindows(Buckets(ts, tf), ts, tf)
  {
    if ts != [] {
      var us, t := ts[..|ts| - 1], ts[|ts| - 1];
      assert ts == us + [t];
      BucketsAreWindows(us, tf);
      WindowStep(us, t, tf);
    }
  }

  /** Every candle ever completed has exactly the open, high, low, close and volume of the ticks whose
      floored time is its start; candle times strictly increase. */
  lemma {:induction false} CandlesAreDirectFolds(ts: seq<Tick>, tf: nat)
    requires MergesAreExact(ts) && Chronological(ts) && tf < TIMEFRAMES
    ensures var log := Run(ts).log[tf];
            && (forall i :: 0 <= i < |log| ==>
                  var window := Select(ts, tf, log[i].time);
                  window != [] && log[i] == Direct(window, log[i].time))
            && (forall i, j :: 0 <= i < j < |log| ==> log[i].time < log[j].time)
  {
    CascadeRefinesBuckets(ts, tf);
    BucketsAreWindows(ts, tf);
    var (log, bs) := (Run(ts).log[tf], Buckets(ts, tf));
    forall i | 0 <= i < |log| ensures log[i] == CandleOf(bs[i], tf) {
      assert log[i] == CandlesOf(bs, tf)[i];
    }
  }

  /** A merge that is not exact: two one-second candles, the first at price zero, merged into five seconds. The
      merge forgets the zero open and low that the direct reading of the two ticks has. */
  lemma ZeroPriceIsForgotten()
    ensures var (a, b) := (Tick(0.0, 1, 0), Tick(10.0, 1, 1000));
            var first := AggregateLevel(Level([], None), 1, CandleOf([a], 0)).0;
            && AggregateLevel(first, 1, CandleOf([b], 0)).0.current == Some(Candle(0, 10.0, 10.0, 10.0, 10.0, 2))
            && CandleOf([a, b], 1) == Candle(0, 0.0, 10.0, 0.0, 10.0, 2)
  {
    var (a, b) := (Tick(0.0, 1, 0), Tick(10.0, 1, 1000));
    assert [a, b][..1] == [a];
    assert TotalVolume([a]) == TotalVolume([]) + 1 && TotalVolume([b]) == TotalVolume([]) + 1;
    assert Sec(a) == 0 && Sec(b) == 1;
  }
}
