/** The candle cascade refines one direct aggregator per timeframe. */
module MtfTheorems {
  import opened Common
  import opened Candles
  import opened MtfSpec

  type Group = g: seq<Tick> | g != [] witness [Tick(1.0, 0, 0)]

  // ---------------------------------------------------------------- reference aggregator

  function Start(g: Group, tf: nat): int {
    FloorTo(Sec(g[0]), tf)
  }

  /** The maximal runs of consecutive ticks that fall into the same window of the timeframe. */
  function Buckets(ts: seq<Tick>, tf: nat): (bs: seq<Group>)
    ensures ts != [] ==> bs != []
  {
    if ts == [] then []
    else
      var bs := Buckets(ts[..|ts| - 1], tf);
      var t := ts[|ts| - 1];
      if bs != [] && Start(bs[|bs| - 1], tf) == FloorTo(Sec(t), tf)
      then bs[..|bs| - 1] + [bs[|bs| - 1] + [t]]
      else bs + [[t]]
  }

  /** The ticks whose floored time is `start`. */
  function Select(ts: seq<Tick>, tf: nat, start: int): seq<Tick> {
    if ts == [] then []
    else
      var rest := Select(ts[..|ts| - 1], tf, start);
      if FloorTo(Sec(ts[|ts| - 1]), tf) == start then rest + [ts[|ts| - 1]] else rest
  }

  predicate Chronological(ts: seq<Tick>) {
    forall i, j :: 0 <= i < j < |ts| ==> ts[i].ms <= ts[j].ms
  }

  function CandleOf(g: Group, tf: nat): Candle {
    Direct(g, Start(g, tf))
  }

  function CandlesOf(gs: seq<Group>, tf: nat): (cs: seq<Candle>)
    ensures |cs| == |gs|
  {
    seq(|gs|, i requires 0 <= i < |gs| => CandleOf(gs[i], tf))
  }

  lemma CandlesOfSnoc(gs: seq<Group>, g: Group, tf: nat)
    ensures CandlesOf(gs + [g], tf) == CandlesOf(gs, tf) + [CandleOf(g, tf)]
  {}

  // ---------------------------------------------------------------- ticks behind each level

  /** The ticks behind one level: those of every completed candle, then those of the open candle. */
  datatype Pile = Pile(done: seq<Group>, open: seq<Tick>)

  predicate Crosses(p: Pile, g: Group, tf: nat) {
    p.open != [] && Start(p.open, tf) != Start(g, tf)
  }

  function Add(p: Pile, g: Group, tf: nat): (q: Pile)
    ensures q.open != []
  {
    if Crosses(p, g, tf) then Pile(p.done + [p.open], g) else Pile(p.done, p.open + g)
  }

  function Feed(gs: seq<Group>, tf: nat): (p: Pile)
    ensures gs != [] ==> p.open != []
    ensures gs == [] ==> p == Pile([], [])
  {
    if gs == [] then Pile([], []) else Add(Feed(gs[..|gs| - 1], tf), gs[|gs| - 1], tf)
  }

  function Singles(ts: seq<Tick>): (gs: seq<Group>)
    ensures |gs| == |ts|
  {
    seq(|ts|, i requires 0 <= i < |ts| => [ts[i]])
  }

  /** Each level is fed the completed groups of the level below it. */
  function PileAt(ts: seq<Tick>, tf: nat): Pile {
    if tf == 0 then Feed(Singles(ts), 0) else Feed(PileAt(ts, tf - 1).done, tf)
  }

  predicate AllPositive(gs: seq<Group>) { forall i :: 0 <= i < |gs| ==> Positive(gs[i]) }

  lemma {:induction false} FeedPositive(gs: seq<Group>, tf: nat)
    requires AllPositive(gs)
    ensures AllPositive(Feed(gs, tf).done) && Positive(Feed(gs, tf).open)
  {
    if gs != [] {
      FeedPositive(gs[..|gs| - 1], tf);
    }
  }

  lemma {:induction false} PilePositive(ts: seq<Tick>, tf: nat)
    requires Positive(ts)
    ensures AllPositive(PileAt(ts, tf).done) && Positive(PileAt(ts, tf).open)
  {
    if tf == 0 {
      FeedPositive(Singles(ts), 0);
    } else {
      PilePositive(ts, tf - 1);
      FeedPositive(PileAt(ts, tf - 1).done, tf);
    }
  }

  // ---------------------------------------------------------------- one level refines its pile

  function Image(p: Pile, tf: nat): Level {
    Level(LastN(CandlesOf(p.done, tf), MAX_HISTORY),
          if p.open == [] then None else Some(CandleOf(p.open, tf)))
  }

  function Closed(p: Pile, g: Group, tf: nat): Option<Candle> {
    if Crosses(p, g, tf) then Some(CandleOf(p.open, tf)) else None
  }

  lemma RolledImage(p: Pile, g: Group, tf: nat, open: real)
    ensures var (l, closed) := Rolled(Image(p, tf), Start(g, tf), open);
            && closed == Closed(p, g, tf)
            && l.history == Image(Add(p, g, tf), tf).history
            && l.current.value == (if p.open != [] && !Crosses(p, g, tf)
                                   then CandleOf(p.open, tf) else NewCandle(Start(g, tf), open))
  {
    if Crosses(p, g, tf) {
      AppendIsLastN(CandlesOf(p.done, tf), CandleOf(p.open, tf), MAX_HISTORY);
      CandlesOfSnoc(p.done, p.open, tf);
    }
  }

  lemma MergedNew(b: Group, time: int, time': int)
    ensures Merged(NewCandle(time, b[0].price), Direct(b, time')) == Direct(b, time)
  {
    ExtremesAreExtreme(b);
  }

  /** When merging the candle of b into that of a is the same as reading their ticks together. An open price
      of zero and a low that is not positive count as missing. */
  predicate MergesExactly(a: Group, b: Group) {
    && (a[0].price == 0.0 ==> b[0].price == 0.0)
    && (LowestPrice(a) <= 0.0 ==> LowestPrice(b) <= LowestPrice(a))
  }

  lemma MergedIsDirectIff(a: Group, b: Group, time: int, time': int)
    ensures Merged(Direct(a, time), Direct(b, time')) == Direct(a + b, time) <==> MergesExactly(a, b)
  {
    ExtremesConcat(a, b);
    TotalVolumeConcat(a, b);
  }

  lemma UpdatedIsDirect(a: seq<Tick>, t: Tick, time: int)
    ensures Updated(NewCandle(time, t.price), t.price, t.volume) == Direct([t], time)
    ensures a != [] ==> Updated(Direct(a, time), t.price, t.volume) == Direct(a + [t], time)
  {
    assert TotalVolume([t]) == TotalVolume([]) + t.volume;
    if a != [] {
      ExtremesConcat(a, [t]);
      TotalVolumeConcat(a, [t]);
    }
  }

  /** Group g starts a candle at level tf, or merges exactly into the one under construction. */
  predicate AddsExactly(p: Pile, g: Group, tf: nat) {
    p.open == [] || Crosses(p, g, tf) || MergesExactly(p.open, g)
  }

  /** Merging the candle of a lower-level group does to the level what adding its ticks does to the pile,
      exactly when the merge is exact; what it closes does not depend on that. */
  lemma AggregateImage(p: Pile, g: Group, tf: nat)
    requires 1 <= tf < TIMEFRAMES
    ensures var (l, closed) := AggregateLevel(Image(p, tf), tf, CandleOf(g, tf - 1));
            closed == Closed(p, g, tf) && (l == Image(Add(p, g, tf), tf) <==> AddsExactly(p, g, tf))
  {
    NestedFloor(Sec(g[0]), tf);
    RolledImage(p, g, tf, g[0].price);
    MergedNew(g, Start(g, tf), Start(g, tf - 1));
    if p.open != [] && !Crosses(p, g, tf) {
      MergedIsDirectIff(p.open, g, Start(g, tf), Start(g, tf - 1));
    } else if p.open == [] {
      assert p.open + g == g;
    }
  }

  lemma TickImage(p: Pile, t: Tick)
    ensures UpdateLevel(Image(p, 0), 0, t.price, t.volume, Sec(t)) == (Image(Add(p, [t], 0), 0), Closed(p, [t], 0))
  {
    RolledImage(p, [t], 0, t.price);
    UpdatedIsDirect(p.open, t, Start([t], 0));
    if p.open == [] { assert p.open + [t] == [t]; }
  }

  // ---------------------------------------------------------------- the whole cascade

  function Piles(ts: seq<Tick>): (ps: seq<Pile>)
    ensures |ps| == TIMEFRAMES
  {
    seq(TIMEFRAMES, k requires 0 <= k < TIMEFRAMES => PileAt(ts, k))
  }

  /** From level tf on, group g entered; above, a level changes exactly when the one below completed. */
  ghost predicate Linked(ps: seq<Pile>, qs: seq<Pile>, tf: nat, g: Group)
    requires |ps| == |qs| == TIMEFRAMES && tf <= TIMEFRAMES
    decreases TIMEFRAMES - tf
  {
    tf == TIMEFRAMES ||
    (&& qs[tf] == Add(ps[tf], g, tf)
     && if Crosses(ps[tf], g, tf) then Linked(ps, qs, tf + 1, ps[tf].open)
        else forall k :: tf < k < TIMEFRAMES ==> qs[k] == ps[k])
  }

  /** The candles the cascade returns, from level tf on. */
  ghost function Emitted(ps: seq<Pile>, tf: nat, g: Group): seq<Candle>
    requires |ps| == TIMEFRAMES && tf <= TIMEFRAMES
    decreases TIMEFRAMES - tf
  {
    if tf == TIMEFRAMES || !Crosses(ps[tf], g, tf) then []
    else [CandleOf(ps[tf].open, tf)] + Emitted(ps, tf + 1, ps[tf].open)
  }

  lemma SamePiles(ts: seq<Tick>, us: seq<Tick>, tf: nat, k: nat)
    requires tf < k && PileAt(us, tf).done == PileAt(ts, tf).done
    ensures PileAt(us, k) == PileAt(ts, k)
  {
    if k > tf + 1 { SamePiles(ts, us, tf, k - 1); }
  }

  lemma FeedSnoc(gs: seq<Group>, g: Group, tf: nat)
    ensures Feed(gs + [g], tf) == Add(Feed(gs, tf), g, tf)
  {
    assert (gs + [g])[..|gs|] == gs;
  }

  lemma {:induction false} CascadeLinked(ts: seq<Tick>, us: seq<Tick>, tf: nat, g: Group)
    requires tf < TIMEFRAMES
    requires PileAt(us, tf) == Add(PileAt(ts, tf), g, tf)
    ensures Linked(Piles(ts), Piles(us), tf, g)
    decreases TIMEFRAMES - tf
  {
    var p, q := PileAt(ts, tf), PileAt(us, tf);
    if !Crosses(p, g, tf) {
      assert q.done == p.done;
      forall k | tf < k < TIMEFRAMES ensures Piles(us)[k] == Piles(ts)[k] {
        SamePiles(ts, us, tf, k);
      }
    } else if tf + 1 < TIMEFRAMES {
      assert q.done == p.done + [p.open];
      FeedSnoc(p.done, p.open, tf + 1);
      CascadeLinked(ts, us, tf + 1, p.open);
    }
  }

  lemma {:induction false} TickLinked(ts: seq<Tick>, t: Tick)
    ensures Linked(Piles(ts), Piles(ts + [t]), 0, [t])
  {
    assert Singles(ts + [t]) == Singles(ts) + [[t]];
    FeedSnoc(Singles(ts), [t], 0);
    CascadeLinked(ts, ts + [t], 0, [t]);
  }

  ghost function Images(ps: seq<Pile>): (ls: seq<Level>)
    requires |ps| == TIMEFRAMES
    ensures |ls| == TIMEFRAMES
    ensures forall k :: 0 <= k < TIMEFRAMES ==> ls[k] == Image(ps[k], k)
  {
    seq(TIMEFRAMES, k requires 0 <= k < TIMEFRAMES => Image(ps[k], k))
  }

  /** The merge at which the cascade from level tf on ends is exact. */
  ghost predicate CascadesExactly(ps: seq<Pile>, tf: nat, g: Group)
    requires |ps| == TIMEFRAMES && tf <= TIMEFRAMES
    decreases TIMEFRAMES - tf
  {
    tf == TIMEFRAMES ||
    (AddsExactly(ps[tf], g, tf) && (Crosses(ps[tf], g, tf) ==> CascadesExactly(ps, tf + 1, ps[tf].open)))
  }

  lemma {:induction false} CascadeImages(ps: seq<Pile>, qs: seq<Pile>, ls: seq<Level>, tf: nat, g: Group)
    requires |ps| == |qs| == |ls| == TIMEFRAMES && 1 <= tf <= TIMEFRAMES && Linked(ps, qs, tf, g)
    requires forall k :: tf <= k < TIMEFRAMES ==> ls[k] == Image(ps[k], k)
    requires forall k :: 0 <= k < tf ==> ls[k] == Image(qs[k], k)
    ensures var (after, emitted) := Cascade(ls, tf, CandleOf(g, tf - 1));
            emitted == Emitted(ps, tf, g) && (after == Images(qs) <==> CascadesExactly(ps, tf, g))
    decreases TIMEFRAMES - tf
  {
    if tf == TIMEFRAMES {
      assert ls == Images(qs);
    } else {
      AggregateImage(ps[tf], g, tf);
      if Crosses(ps[tf], g, tf) {
        CascadeImages(ps, qs, ls[tf := Image(qs[tf], tf)], tf + 1, ps[tf].open);
      } else {
        CascadeEnds(qs, ls, tf, AggregateLevel(ls[tf], tf, CandleOf(g, tf - 1)).0);
      }
    }
  }

  lemma CascadeEnds(qs: seq<Pile>, ls: seq<Level>, tf: nat, l: Level)
    requires |qs| == |ls| == TIMEFRAMES && tf < TIMEFRAMES
    requires forall k :: 0 <= k < TIMEFRAMES && k != tf ==> ls[k] == Image(qs[k], k)
    ensures ls[tf := l] == Images(qs) <==> l == Image(qs[tf], tf)
  {
    if l == Image(qs[tf], tf) { assert ls[tf := l] == Images(qs); }
    assert ls[tf := l][tf] == l;
  }

  ghost function Logs(ps: seq<Pile>): (log: seq<seq<Candle>>)
    requires |ps| == TIMEFRAMES
    ensures |log| == TIMEFRAMES
    ensures forall k :: 0 <= k < TIMEFRAMES ==> log[k] == CandlesOf(ps[k].done, k)
  {
    seq(TIMEFRAMES, k requires 0 <= k < TIMEFRAMES => CandlesOf(ps[k].done, k))
  }

  lemma {:induction false} EmittedLogs(ps: seq<Pile>, qs: seq<Pile>, tf: nat, g: Group, k: nat)
    requires |ps| == |qs| == TIMEFRAMES && tf <= k < TIMEFRAMES
    requires Linked(ps, qs, tf, g)
    ensures var e := Emitted(ps, tf, g);
            CandlesOf(qs[k].done, k) ==
            if k - tf < |e| then CandlesOf(ps[k].done, k) + [e[k - tf]] else CandlesOf(ps[k].done, k)
    decreases k - tf
  {
    if Crosses(ps[tf], g, tf) {
      if k == tf {
        CandlesOfSnoc(ps[tf].done, ps[tf].open, tf);
      } else {
        EmittedLogs(ps, qs, tf + 1, ps[tf].open, k);
        EmittedNext(ps, tf, g, k - tf);
      }
    }
  }

  lemma EmittedNext(ps: seq<Pile>, tf: nat, g: Group, n: nat)
    requires |ps| == TIMEFRAMES && tf < TIMEFRAMES && Crosses(ps[tf], g, tf) && n > 0
    ensures var e, rest := Emitted(ps, tf, g), Emitted(ps, tf + 1, ps[tf].open);
            |e| == |rest| + 1 && (n < |e| ==> e[n] == rest[n - 1])
  {
  }

  /** What tick t sets off ends in an exact merge, if in any. */
  ghost predicate TickExact(ps: seq<Pile>, t: Tick)
    requires |ps| == TIMEFRAMES
  {
    Crosses(ps[0], [t], 0) ==> CascadesExactly(ps, 1, ps[0].open)
  }

  /** All merges that happen during the run are exact. */
  ghost predicate MergesAreExact(ts: seq<Tick>) {
    ts == [] || (MergesAreExact(ts[..|ts| - 1]) && TickExact(Piles(ts[..|ts| - 1]), ts[|ts| - 1]))
  }

  ghost predicate Refines(ts: seq<Tick>) {
    Run(ts) == Outcome(Images(Piles(ts)), Logs(Piles(ts)))
  }

  /** The engine's candles after any run with exact merges are those of the piles: cascading completed candles
      loses nothing. */
  lemma {:induction false} CascadeRefinesPiles(ts: seq<Tick>)
    requires MergesAreExact(ts)
    ensures Run(ts) == Outcome(Images(Piles(ts)), Logs(Piles(ts)))
  {
    if ts == [] {
      EmptyPiles();
    } else {
      CascadeRefinesPiles(ts[..|ts| - 1]);
      StepRefines(ts);
    }
  }

  lemma EveryPrefix(us: seq<Tick>, ts: seq<Tick>, p: seq<Tick> -> bool)
    requires ts != [] && us == ts[..|ts| - 1]
    ensures (forall n :: 0 <= n <= |ts| ==> p(ts[..n])) <==> (forall n :: 0 <= n <= |us| ==> p(us[..n])) && p(ts)
  {
    assert ts[..|ts|] == ts && forall n :: 0 <= n <= |us| ==> us[..n] == ts[..n];
    if forall n :: 0 <= n <= |ts| ==> p(ts[..n]) {
      assert p(ts[..|ts|]);
      forall n | 0 <= n <= |us| ensures p(us[..n]) { assert p(ts[..n]); }
    }
    if (forall n :: 0 <= n <= |us| ==> p(us[..n])) && p(ts) {
      forall n | 0 <= n <= |ts| ensures p(ts[..n]) { assert n <= |us| ==> p(us[..n]); }
    }
  }

  /** At every moment of a run the engine's candles are those of the piles exactly when all its merges are
      exact. */
  lemma {:induction false} CascadeRefinesIff(ts: seq<Tick>)
    ensures (forall n :: 0 <= n <= |ts| ==> Refines(ts[..n])) <==> MergesAreExact(ts)
  {
    if ts == [] {
      assert ts[..0] == [];
      EmptyPiles();
    } else {
      CascadeRefinesIff(ts[..|ts| - 1]);
      StepRefinesIff(ts);
      EveryPrefix(ts[..|ts| - 1], ts, Refines);
    }
  }

  lemma StepRefinesIff(ts: seq<Tick>)
    requires ts != []
    ensures Refines(ts[..|ts| - 1]) ==> (Refines(ts) <==> TickExact(Piles(ts[..|ts| - 1]), ts[|ts| - 1]))
    ensures MergesAreExact(ts[..|ts| - 1]) ==> Refines(ts[..|ts| - 1])
  {
    if Refines(ts[..|ts| - 1]) { StepRefines(ts); }
    if MergesAreExact(ts[..|ts| - 1]) { CascadeRefinesPiles(ts[..|ts| - 1]); }
  }

  lemma {:induction false} StepRefines(ts: seq<Tick>)
    requires ts != [] && Refines(ts[..|ts| - 1])
    ensures Refines(ts) <==> TickExact(Piles(ts[..|ts| - 1]), ts[|ts| - 1])
  {
    var us, t := ts[..|ts| - 1], ts[|ts| - 1];
    var ps, qs := Piles(us), Piles(ts);
    assert ts == us + [t];
    TickLinked(us, t);
    TickImages(ps, qs, t);
    TickLogs(ps, qs, t);
  }

  lemma {:induction false} TickImages(ps: seq<Pile>, qs: seq<Pile>, t: Tick)
    requires |ps| == |qs| == TIMEFRAMES && Linked(ps, qs, 0, [t])
    ensures var (after, emitted) := TickStep(Images(ps), t);
            emitted == Emitted(ps, 0, [t]) && (after == Images(qs) <==> TickExact(ps, t))
  {
    TickImage(ps[0], t);
    var ls := Images(ps)[0 := Image(qs[0], 0)];
    if Crosses(ps[0], [t], 0) {
      CascadeImages(ps, qs, ls, 1, ps[0].open);
    } else {
      assert ls == Images(qs);
    }
  }

  // ---------------------------------------------------------------- positive prices

  lemma PositiveMergesExactly(a: Group, b: Group)
    requires Positive(a)
    ensures MergesExactly(a, b)
  {
    PositiveExtremes(a);
  }

  lemma {:induction false} PositiveCascade(ps: seq<Pile>, tf: nat, g: Group)
    requires |ps| == TIMEFRAMES && tf <= TIMEFRAMES && forall k :: 0 <= k < TIMEFRAMES ==> Positive(ps[k].open)
    ensures CascadesExactly(ps, tf, g)
    decreases TIMEFRAMES - tf
  {
    if tf < TIMEFRAMES {
      if ps[tf].open != [] {
        PositiveMergesExactly(ps[tf].open, g);
        PositiveCascade(ps, tf + 1, ps[tf].open);
      }
    }
  }

  /** With positive prices every merge is exact. */
  lemma {:induction false} PositiveRunsMergeExactly(ts: seq<Tick>)
    requires Positive(ts)
    ensures MergesAreExact(ts)
  {
    if ts != [] {
      var us, t := ts[..|ts| - 1], ts[|ts| - 1];
      PositiveRunsMergeExactly(us);
      var ps := Piles(us);
      forall k | 0 <= k < TIMEFRAMES ensures Positive(ps[k].open) { PilePositive(us, k); }
      if ps[0].open != [] { PositiveCascade(ps, 1, ps[0].open); }
    }
  }

  lemma TickLogs(ps: seq<Pile>, qs: seq<Pile>, t: Tick)
    requires |ps| == |qs| == TIMEFRAMES && Linked(ps, qs, 0, [t]) && |Emitted(ps, 0, [t])| <= TIMEFRAMES
    ensures Logged(Logs(ps), Emitted(ps, 0, [t])) == Logs(qs)
  {
    var e := Emitted(ps, 0, [t]);
    forall k | 0 <= k < TIMEFRAMES ensures Logs(qs)[k] == Logged(Logs(ps), e)[k] {
      EmittedLogs(ps, qs, 0, [t], k);
    }
  }

  lemma {:induction false} EmptyPiles()
    ensures Images(Piles([])) == Empty() && Logs(Piles([])) == seq(TIMEFRAMES, _ => [])
  {
    forall k | 0 <= k < TIMEFRAMES ensures Piles([])[k] == Pile([], []) {
      EmptyPile(k);
    }
  }

  lemma {:induction false} EmptyPile(tf: nat)
    ensures PileAt([], tf) == Pile([], [])
  {
    if tf > 0 { EmptyPile(tf - 1); }
  }
}
