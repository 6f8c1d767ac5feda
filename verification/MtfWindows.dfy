/** What a candle of the engine is in terms of the clock: windows of literal length, and the prices and volumes of
    the ticks in them. */
module MtfWindows {
  import opened Common
  import opened Candles
  import opened MtfSpec
  import opened MtfTheorems
  import opened MtfResults
  import MinuteRoutes

  /** The tick falls into the `width` seconds from `time` on. */
  predicate Inside(t: Tick, time: int, width: nat) { time * 1000 <= t.ms < (time + width) * 1000 }

  function Within(ts: seq<Tick>, time: int, width: nat): seq<Tick> {
    if ts == [] then []
    else
      var rest := Within(ts[..|ts| - 1], time, width);
      if Inside(ts[|ts| - 1], time, width) then rest + [ts[|ts| - 1]] else rest
  }

  lemma InsideIsSelected(t: Tick, tf: nat, start: int)
    requires tf < TIMEFRAMES && start % WIDTHS[tf] == 0
    ensures FloorTo(Sec(t), tf) == start <==> Inside(t, start, WIDTHS[tf])
  {
    FloorIsWindow(Sec(t), tf, start);
  }

  lemma {:induction false} SelectIsWithin(ts: seq<Tick>, tf: nat, start: int)
    requires tf < TIMEFRAMES && start % WIDTHS[tf] == 0
    ensures Select(ts, tf, start) == Within(ts, start, WIDTHS[tf])
  {
    if ts != [] {
      SelectIsWithin(ts[..|ts| - 1], tf, start);
      InsideIsSelected(ts[|ts| - 1], tf, start);
    }
  }

  /** Whatever the ticks, a candle starts at a multiple of its timeframe's length. */
  lemma {:induction false} StartsAreMultiples(ts: seq<Tick>, tf: nat, i: nat)
    requires tf < TIMEFRAMES && i < |Run(ts).log[tf]|
    ensures Run(ts).log[tf][i].time % WIDTHS[tf] == 0
  {
    var rs := Repriced(ts);
    RunsAlike(ts);
    PositiveRunsMergeExactly(rs);
    CascadeRefinesBuckets(rs, tf);
    var bs := Buckets(rs, tf);
    assert AllAlike(Run(ts).log[tf], Run(rs).log[tf]);
    assert Run(rs).log[tf][i] == CandlesOf(bs, tf)[i];
    FloorIsWindow(Sec(bs[i][0]), tf, Start(bs[i], tf));
  }

  /** The candle's prices and volume: first, last, largest, smallest, sum. */
  ghost predicate Summarises(c: Candle, ts: seq<Tick>)
    requires ts != []
  {
    && c.open == ts[0].price && c.close == ts[|ts| - 1].price && c.volume == TotalVolume(ts)
    && (forall i :: 0 <= i < |ts| ==> c.low <= ts[i].price <= c.high)
    && (exists i :: 0 <= i < |ts| && ts[i].price == c.high)
    && (exists i :: 0 <= i < |ts| && ts[i].price == c.low)
  }

  lemma DirectSummarises(ts: seq<Tick>, time: int)
    requires ts != []
    ensures Summarises(Direct(ts, time), ts)
  {
    ExtremesAreExtreme(ts);
  }

  /** For ticks in time order and exact merges: every completed candle of a timeframe is open, high, low, close and
      volume of exactly the ticks in the window of literal length that it starts, a multiple of that length. */
  lemma {:induction false} CandlesAreWindows(ts: seq<Tick>, tf: nat, i: nat)
    requires MergesAreExact(ts) && Chronological(ts) && tf < TIMEFRAMES && i < |Run(ts).log[tf]|
    ensures var c, width := Run(ts).log[tf][i], [1, 5, 15, 30, 60, 300][tf];
            var window := Within(ts, c.time, width);
            c.time % width == 0 && window != [] && Summarises(c, window)
  {
    var c := Run(ts).log[tf][i];
    CandlesAreDirectFolds(ts, tf);
    StartsAreMultiples(ts, tf, i);
    SelectIsWithin(ts, tf, c.time);
    DirectSummarises(Select(ts, tf, c.time), c.time);
  }

  /** Every one-minute candle, and the pending one, is that of exactly the ticks accepted in the minute it starts. */
  lemma {:induction false} MinutesAreWindows(ts: seq<Tick>, i: nat)
    requires i < |MinuteRoutes.AllCandles(MinuteRoutes.Run(ts))|
    ensures var o := MinuteRoutes.Run(ts);
            var c := MinuteRoutes.AllCandles(o)[i];
            var window := Within(o.accepted, c.time, 60);
            c.time % 60 == 0 && window != [] && Summarises(c, window)
  {
    var o := MinuteRoutes.Run(ts);
    var c := MinuteRoutes.AllCandles(o)[i];
    MinuteRoutes.EmittedAreDirect(ts);
    assert MinuteRoutes.IsDirect(c, o.accepted);
    var window := Select(o.accepted, MINUTE, c.time);
    SelectedStarts(o.accepted, MINUTE, c.time);
    SelectIsWithin(o.accepted, MINUTE, c.time);
    DirectSummarises(window, c.time);
  }

  lemma {:induction false} SelectedStarts(ts: seq<Tick>, tf: nat, start: int)
    requires tf < TIMEFRAMES && Select(ts, tf, start) != []
    ensures start % WIDTHS[tf] == 0
  {
    if FloorTo(Sec(ts[|ts| - 1]), tf) == start {
      FloorIsWindow(Sec(ts[|ts| - 1]), tf, start);
    } else {
      SelectedStarts(ts[..|ts| - 1], tf, start);
    }
  }

  // ---------------------------------------------------------------- the stored candles

  /** The last 200 of all, in order. */
  ghost predicate Keeps200(stored: seq<Candle>, all: seq<Candle>) {
    && |stored| == (if |all| < 200 then |all| else 200)
    && forall k :: 0 <= k < |stored| ==> stored[k] == all[|all| - |stored| + k]
  }

  lemma KeepsOneMore(stored: seq<Candle>, all: seq<Candle>, c: Candle)
    requires Keeps200(stored, all)
    ensures Keeps200(Append(stored, c, MAX_HISTORY), all + [c])
  {
  }

  ghost predicate AllKeep200(o: Outcome)
    requires |o.levels| == |o.log| == TIMEFRAMES
  {
    forall k :: 0 <= k < TIMEFRAMES ==> Keeps200(o.levels[k].history, o.log[k])
  }

  ghost predicate Stores(l: Level, m: Level, closed: Option<Candle>) {
    m.history == if closed.Some? then Append(l.history, closed.value, MAX_HISTORY) else l.history
  }

  /** Every timeframe from tf on stores what it completed. */
  ghost predicate AllStore(ls: seq<Level>, ms: seq<Level>, tf: nat, emitted: seq<Candle>) {
    && |ls| == |ms| == TIMEFRAMES
    && forall k :: tf <= k < TIMEFRAMES ==>
         Stores(ls[k], ms[k], if k - tf < |emitted| then Some(emitted[k - tf]) else None)
  }

  lemma AggregateStores(l: Level, tf: nat, c: Candle)
    ensures var (m, closed) := AggregateLevel(l, tf, c); Stores(l, m, closed)
  {
  }

  lemma UpdateStores(l: Level, t: Tick)
    ensures var (m, closed) := UpdateLevel(l, 0, t.price, t.volume, Sec(t)); Stores(l, m, closed)
  {
  }

  lemma OnlyOneStores(ls: seq<Level>, tf: nat, l: Level)
    requires |ls| == TIMEFRAMES && tf < TIMEFRAMES && Stores(ls[tf], l, None)
    ensures AllStore(ls, ls[tf := l], tf, [])
  {
  }

  lemma OneMoreStores(ls: seq<Level>, tf: nat, l: Level, ms: seq<Level>, e: Candle, more: seq<Candle>)
    requires |ls| == TIMEFRAMES && tf < TIMEFRAMES && Stores(ls[tf], l, Some(e))
    requires AllStore(ls[tf := l], ms, tf + 1, more) && ms[..tf + 1] == ls[tf := l][..tf + 1]
    ensures AllStore(ls, ms, tf, [e] + more)
  {
    assert ms[tf] == ms[..tf + 1][tf] == ls[tf := l][..tf + 1][tf] == l;
    forall k | tf < k < TIMEFRAMES
      ensures Stores(ls[k], ms[k], if k - tf < |[e] + more| then Some(([e] + more)[k - tf]) else None)
    {
      assert Stores(ls[tf := l][k], ms[k], if k - (tf + 1) < |more| then Some(more[k - (tf + 1)]) else None);
    }
  }

  lemma {:induction false} CascadeStores(ls: seq<Level>, tf: nat, c: Candle)
    requires |ls| == TIMEFRAMES && tf <= TIMEFRAMES
    ensures var (ms, emitted) := Cascade(ls, tf, c); AllStore(ls, ms, tf, emitted)
    decreases TIMEFRAMES - tf
  {
    if tf < TIMEFRAMES {
      var (l, closed) := AggregateLevel(ls[tf], tf, c);
      AggregateStores(ls[tf], tf, c);
      if closed.None? {
        OnlyOneStores(ls, tf, l);
      } else {
        CascadeStores(ls[tf := l], tf + 1, closed.value);
        var (ms, more) := Cascade(ls[tf := l], tf + 1, closed.value);
        OneMoreStores(ls, tf, l, ms, closed.value, more);
      }
    }
  }

  lemma FeedStores(ls: seq<Level>, tf: nat, l: Level, e: Candle)
    requires |ls| == TIMEFRAMES && tf < TIMEFRAMES && Stores(ls[tf], l, Some(e))
    ensures var (ms, more) := Cascade(ls[tf := l], tf + 1, e); AllStore(ls, ms, tf, [e] + more)
  {
    CascadeStores(ls[tf := l], tf + 1, e);
    var (ms, more) := Cascade(ls[tf := l], tf + 1, e);
    OneMoreStores(ls, tf, l, ms, e, more);
  }

  lemma TickStores(ls: seq<Level>, t: Tick)
    requires |ls| == TIMEFRAMES
    ensures var (ms, emitted) := TickStep(ls, t); AllStore(ls, ms, 0, emitted)
  {
    var (l, closed) := UpdateLevel(ls[0], 0, t.price, t.volume, Sec(t));
    UpdateStores(ls[0], t);
    if closed.None? {
      OnlyOneStores(ls, 0, l);
    } else {
      FeedStores(ls, 0, l, closed.value);
    }
  }

  /** Whatever the ticks, every timeframe stores the last 200 candles it ever completed. */
  lemma {:induction false} HistoryIsLast200(ts: seq<Tick>)
    ensures AllKeep200(Run(ts))
  {
    if ts != [] {
      var us, t := ts[..|ts| - 1], ts[|ts| - 1];
      HistoryIsLast200(us);
      TickStores(Run(us).levels, t);
      var (levels, emitted) := TickStep(Run(us).levels, t);
      forall k: nat | k < TIMEFRAMES ensures Keeps200(Run(ts).levels[k].history, Run(ts).log[k]) {
        assert Stores(Run(us).levels[k], levels[k], if k - 0 < |emitted| then Some(emitted[k - 0]) else None);
        if k < |emitted| { KeepsOneMore(Run(us).levels[k].history, Run(us).log[k], emitted[k]); }
      }
    }
  }

  // ---------------------------------------------------------------- the route from one-minute candles

  /** The volume of the minutes that start in the five minutes from `time` on. */
  function MinuteVolume(cs: seq<Candle>, time: int): int {
    if cs == [] then 0
    else
      var c := cs[|cs| - 1];
      MinuteVolume(cs[..|cs| - 1], time) + if time <= c.time < time + 300 then c.volume else 0
  }

  predicate InOrder(cs: seq<Candle>) { forall i, j :: 0 <= i < j < |cs| ==> cs[i].time <= cs[j].time }

  /** A five-minute candle so far, and nothing later than what it holds. */
  ghost predicate Collects(cs: seq<Candle>, c: Candle) {
    c.time % 300 == 0 && c.volume == MinuteVolume(cs, c.time)
  }

  ghost predicate Collected(cs: seq<Candle>, o: MinuteOutcome)
    requires |o.levels| == TIMEFRAMES
  {
    && (forall i :: 0 <= i < |o.fiveMinute| ==>
          Collects(cs, o.fiveMinute[i]) && cs != [] && o.fiveMinute[i].time + 300 <= cs[|cs| - 1].time)
    && (o.levels[MINUTE + 1].current.None? <==> cs == [])
    && (cs != [] ==>
          var c := o.levels[MINUTE + 1].current.value;
          Collects(cs, c) && c.time <= cs[|cs| - 1].time < c.time + 300)
  }

  lemma {:induction false} NothingBefore(cs: seq<Candle>, time: int)
    requires forall i :: 0 <= i < |cs| ==> cs[i].time < time
    ensures MinuteVolume(cs, time) == 0
  {
    if cs != [] { NothingBefore(cs[..|cs| - 1], time); }
  }

  lemma CollectStep(us: seq<Candle>, o: MinuteOutcome, m: Candle)
    requires |o.levels| == TIMEFRAMES && Collected(us, o) && InOrder(us + [m])
    ensures var (levels, closed) := MinuteStep(o.levels, m);
            Collected(us + [m], MinuteOutcome(levels, if closed.Some? then o.fiveMinute + [closed.value]
                                                      else o.fiveMinute))
  {
    var start := FloorTo(m.time, 5);
    FloorIsWindow(m.time, 5, start);
    assert (us + [m])[..|us|] == us;
    forall i | 0 <= i < |us| ensures us[i].time <= m.time {
      assert (us + [m])[i] == us[i] && (us + [m])[|us|] == m;
    }
    if us != [] {
      var c := o.levels[MINUTE + 1].current.value;
      if c.time != start {
        assert c.time % 300 == 0 && start % 300 == 0;
        assert us[|us| - 1].time <= m.time;
        NextWindowIsLater(c.time, start, us[|us| - 1].time, m.time);
        forall i | 0 <= i < |us| ensures us[i].time < start {}
        NothingBefore(us, start);
      }
    } else {
      NothingBefore(us, start);
    }
  }

  lemma NextWindowIsLater(a: int, b: int, s: int, t: int)
    requires a % 300 == 0 && b % 300 == 0 && a <= s < a + 300 && b <= t < b + 300 && s <= t && a != b
    ensures a + 300 <= b
  {
  }

  /** Whatever one-minute candles arrive in time order, every five-minute candle completed from them starts at a
      multiple of 300 seconds and holds the volume of exactly the minutes that start in its five. */
  lemma {:induction false} FiveMinutesAreWindows(cs: seq<Candle>)
    requires InOrder(cs)
    ensures Collected(cs, RunMinutes(cs))
  {
    if cs != [] {
      var us, m := cs[..|cs| - 1], cs[|cs| - 1];
      FiveMinutesAreWindows(us);
      assert us + [m] == cs;
      CollectStep(us, RunMinutes(us), m);
    }
  }
}
