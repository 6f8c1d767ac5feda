/** The opening-range columns a backtest computes once over its whole frame, and when they let a bar see the
    future. Times are milliseconds; a column that is missing for a bar is not among its indicators. */
module OpeningRange {
  import opened Common
  import opened Backtest

  const RANGE_START: int := 33_300_000  // 09:15
  const RANGE_END: int := 34_200_000    // 09:30
  const RANGE_ROWS: nat := 15

  datatype Range = Range(high: real, low: real)

  /** `offset` is that of India for an index with a time zone and nothing for one without. */
  function TimeOfDay(bar: Bar, offset: int): int { (bar.time + offset) % 86_400_000 }

  predicate Opens(bar: Bar, offset: int) { RANGE_START <= TimeOfDay(bar, offset) <= RANGE_END }

  predicate IsLater(bar: Bar, offset: int) { TimeOfDay(bar, offset) > RANGE_END }

  function Widen(range: Option<Range>, bar: Bar): Range {
    match range
    case None => Range(bar.high, bar.low)
    case Some(r) => Range(Max(r.high, bar.high), Min(r.low, bar.low))
  }

  /** The largest high and the smallest low. */
  function Extremes(bars: seq<Bar>): Option<Range> {
    if bars == [] then None else Some(Widen(Extremes(bars[..|bars| - 1]), bars[|bars| - 1]))
  }

  /** Those of the bars between 09:15 and 09:30, on whatever day. */
  function Opening(bars: seq<Bar>, offset: int): Option<Range> {
    if bars == [] then None
    else
      var before, bar := Opening(bars[..|bars| - 1], offset), bars[|bars| - 1];
      if Opens(bar, offset) then Some(Widen(before, bar)) else before
  }

  function Stamp(bar: Bar, range: Option<Range>): Bar {
    match range
    case None => bar
    case Some(r) => bar.(indicators := bar.indicators + [r.high, r.low])
  }

  /** On an index of times, every bar after 09:30 gets the range. */
  function ByClock(bars: seq<Bar>, offset: int): (r: seq<Bar>)
    ensures |r| == |bars|
  {
    seq(|bars|, i requires 0 <= i < |bars| =>
      Stamp(bars[i], if IsLater(bars[i], offset) then Opening(bars, offset) else None))
  }

  /** On an index of row numbers, every row after the first fifteen gets theirs. */
  function ByRows(bars: seq<Bar>): (r: seq<Bar>)
    ensures |r| == |bars|
  {
    seq(|bars|, i requires 0 <= i < |bars| =>
      Stamp(bars[i], if i >= RANGE_ROWS then Extremes(bars[..RANGE_ROWS]) else None))
  }

  // ---------------------------------------------------------------- what the columns hold

  /** The largest high and the smallest low of the bars at these places. */
  ghost predicate IsRange(r: Range, bars: seq<Bar>, places: set<nat>) {
    && (forall k :: k in places ==> k < |bars| && bars[k].high <= r.high && r.low <= bars[k].low)
    && (exists k :: k in places && bars[k].high == r.high)
    && (exists k :: k in places && bars[k].low == r.low)
  }

  /** Where the bars between 09:15 and 09:30 stand, both ends included. */
  ghost function OpeningPlaces(bars: seq<Bar>, offset: int): set<nat> {
    set k: nat | k < |bars| && 33_300_000 <= (bars[k].time + offset) % 86_400_000 <= 34_200_000
  }

  lemma PrefixRange(r: Range, bars: seq<Bar>, n: nat, places: set<nat>)
    requires n <= |bars| && IsRange(r, bars[..n], places)
    ensures IsRange(r, bars, places)
  {
    var i :| i in places && bars[..n][i].high == r.high;
    var j :| j in places && bars[..n][j].low == r.low;
    assert bars[i].high == r.high && bars[j].low == r.low;
    forall k | k in places ensures k < n && bars[..n][k] == bars[k] {}
  }

  lemma WidenIsRange(range: Option<Range>, bars: seq<Bar>, places: set<nat>)
    requires |bars| > 0 && |bars| - 1 !in places
    requires if range.Some? then IsRange(range.value, bars[..|bars| - 1], places) else places == {}
    ensures IsRange(Widen(range, bars[|bars| - 1]), bars, places + {|bars| - 1})
  {
    var n := |bars| - 1;
    if range.Some? {
      PrefixRange(range.value, bars, n, places);
    }
    assert n in places + {n};
  }

  lemma {:induction false} OpeningIsRange(bars: seq<Bar>, offset: int)
    ensures match Opening(bars, offset)
            case None => OpeningPlaces(bars, offset) == {}
            case Some(r) => IsRange(r, bars, OpeningPlaces(bars, offset))
  {
    if bars != [] {
      var n := |bars| - 1;
      var before := OpeningPlaces(bars[..n], offset);
      OpeningIsRange(bars[..n], offset);
      assert forall k: nat :: k < n ==> bars[..n][k] == bars[k];
      if Opens(bars[n], offset) {
        WidenIsRange(Opening(bars[..n], offset), bars, before);
        assert OpeningPlaces(bars, offset) == before + {n};
      } else {
        assert OpeningPlaces(bars, offset) == before;
        if before != {} { PrefixRange(Opening(bars[..n], offset).value, bars, n, before); }
      }
    }
  }

  ghost function FirstPlaces(n: nat): (places: set<nat>)
    ensures forall k: nat :: k in places <==> k < n
  {
    if n == 0 then {} else FirstPlaces(n - 1) + {n - 1}
  }

  lemma {:induction false} ExtremesAreRange(bars: seq<Bar>)
    requires bars != []
    ensures Extremes(bars).Some? && IsRange(Extremes(bars).value, bars, FirstPlaces(|bars|))
  {
    var n := |bars| - 1;
    if n > 0 { ExtremesAreRange(bars[..n]); }
    WidenIsRange(Extremes(bars[..n]), bars, FirstPlaces(n));
  }

  /** The bar has the range of these places, or no range. */
  ghost predicate StampedWith(stamped: Bar, bar: Bar, bars: seq<Bar>, places: set<nat>) {
    if places == {} then stamped == bar
    else exists r :: IsRange(r, bars, places) && stamped == bar.(indicators := bar.indicators + [r.high, r.low])
  }

  /** On an index of times the bars after 09:30, and no others, get the highest high and lowest low of all bars
      between 09:15 and 09:30. */
  lemma {:induction false} ClockColumnsAreRange(bars: seq<Bar>, offset: int, i: nat)
    requires i < |bars|
    ensures StampedWith(ByClock(bars, offset)[i], bars[i], bars,
                        if (bars[i].time + offset) % 86_400_000 > 34_200_000 then OpeningPlaces(bars, offset) else {})
  {
    OpeningIsRange(bars, offset);
    if IsLater(bars[i], offset) && OpeningPlaces(bars, offset) != {} {
      var r := Opening(bars, offset).value;
      assert IsRange(r, bars, OpeningPlaces(bars, offset));
    }
  }

  /** On an index of row numbers the rows after the fifteenth get those of the first fifteen. */
  lemma {:induction false} RowColumnsAreRange(bars: seq<Bar>, i: nat)
    requires i < |bars|
    ensures StampedWith(ByRows(bars)[i], bars[i], bars, if i >= 15 then FirstPlaces(15) else {})
  {
    if i >= 15 {
      ExtremesAreRange(bars[..15]);
      var r := Extremes(bars[..15]).value;
      PrefixRange(r, bars, 15, FirstPlaces(15));
      assert 0 in FirstPlaces(15);
    }
  }

  // ---------------------------------------------------------------- what more bars change

  predicate Within(bar: Bar, range: Option<Range>) {
    range.Some? && bar.high <= range.value.high && bar.low >= range.value.low
  }

  /** No bar of the frame has a range yet, or none of the bars to come widens it. */
  ghost predicate Settled(bars: seq<Bar>, more: seq<Bar>, offset: int) {
    || (forall i :: 0 <= i < |bars| ==> !IsLater(bars[i], offset))
    || (forall i :: 0 <= i < |more| && Opens(more[i], offset) ==> Within(more[i], Opening(bars, offset)))
  }

  predicate Covers(wide: Option<Range>, narrow: Option<Range>) {
    narrow.Some? ==> wide.Some? && wide.value.high >= narrow.value.high && wide.value.low <= narrow.value.low
  }

  lemma {:induction false} OpeningGrows(bars: seq<Bar>, more: seq<Bar>, offset: int)
    ensures Covers(Opening(bars + more, offset), Opening(bars, offset))
    ensures Opening(bars + more, offset) == Opening(bars, offset)
            <==> forall i :: 0 <= i < |more| && Opens(more[i], offset) ==> Within(more[i], Opening(bars, offset))
  {
    if more == [] {
      assert bars + more == bars;
    } else {
      var n := |more| - 1;
      OpeningGrows(bars, more[..n], offset);
      assert (bars + more)[..|bars| + n] == bars + more[..n] && (bars + more)[|bars| + n] == more[n];
      assert forall i :: 0 <= i < n ==> more[..n][i] == more[i];
    }
  }

  lemma StampTells(bar: Bar, r: Option<Range>, q: Option<Range>)
    ensures Stamp(bar, r) == Stamp(bar, q) <==> r == q
  {
    var n := |bar.indicators|;
    if r.Some? { assert Stamp(bar, r).indicators[n..] == [r.value.high, r.value.low]; }
    if q.Some? { assert Stamp(bar, q).indicators[n..] == [q.value.high, q.value.low]; }
    if r.Some? && q.Some? && Stamp(bar, r) == Stamp(bar, q) {
      assert [r.value.high, r.value.low][0] == [q.value.high, q.value.low][0];
      assert [r.value.high, r.value.low][1] == [q.value.high, q.value.low][1];
    }
  }

  /** On an index of times, the columns of a frame stay what they are when bars are appended exactly when the
      range is settled. */
  lemma ClockColumnsStayIff(bars: seq<Bar>, more: seq<Bar>, offset: int)
    ensures ByClock(bars + more, offset)[..|bars|] == ByClock(bars, offset) <==> Settled(bars, more, offset)
  {
    var all := ByClock(bars + more, offset)[..|bars|];
    OpeningGrows(bars, more, offset);
    forall i | 0 <= i < |bars|
      ensures all[i] == ByClock(bars, offset)[i]
              <==> (IsLater(bars[i], offset) ==> Opening(bars + more, offset) == Opening(bars, offset))
    {
      assert (bars + more)[i] == bars[i];
      StampTells(bars[i], Opening(bars + more, offset), Opening(bars, offset));
    }
  }

  /** Within one day, in order, the range is settled before any bar has it. */
  lemma OneDayIsSettled(bars: seq<Bar>, more: seq<Bar>, offset: int)
    requires forall i, j :: 0 <= i < j < |bars + more| ==>
               TimeOfDay((bars + more)[i], offset) <= TimeOfDay((bars + more)[j], offset)
    ensures Settled(bars, more, offset)
  {
    if i :| 0 <= i < |bars| && IsLater(bars[i], offset) {
      forall j | 0 <= j < |more| ensures !Opens(more[j], offset) {
        assert (bars + more)[i] == bars[i] && (bars + more)[|bars| + j] == more[j];
      }
    }
  }

  /** On an index of row numbers the columns of a frame never change. */
  lemma RowColumnsStay(bars: seq<Bar>, more: seq<Bar>)
    ensures ByRows(bars + more)[..|bars|] == ByRows(bars)
  {
    if |bars| > RANGE_ROWS { assert (bars + more)[..RANGE_ROWS] == bars[..RANGE_ROWS]; }
  }

  // ---------------------------------------------------------------- whole backtests

  /** A run depends on the bars it has seen. */
  lemma SeenIsAll(s: Setup, a: seq<Bar>, b: seq<Bar>, n: nat)
    requires n <= |a| && n <= |b| && a[..n] == b[..n]
    ensures After(s, a, n) == After(s, b, n)
  {
    NoLookahead(s, a[..n], a[n..], n);
    NoLookahead(s, b[..n], b[n..], n);
    assert a[..n] + a[n..] == a && b[..n] + b[n..] == b;
  }

  /** A backtest over row numbers does not look ahead, its opening ranges included. */
  lemma RowRunsNeverLookAhead(s: Setup, bars: seq<Bar>, more: seq<Bar>, n: nat)
    requires n <= |bars|
    ensures After(s, ByRows(bars + more), n) == After(s, ByRows(bars), n)
  {
    RowColumnsStay(bars, more);
    var all, own := ByRows(bars + more), ByRows(bars);
    assert all[..n] == all[..|bars|][..n];
    SeenIsAll(s, all, own, n);
  }

  /** A strategy that signals on one bar only. */
  function Spotting(bar: Bar, k: nat): Setup {
    Setup(k, 0.0, false, 0.0, 0.0,
          (w: seq<Bar>) => if w != [] && w[|w| - 1] == bar then Some(Signal(Buy, 0.0, 0.0, 0.0)) else None,
          _ => Skipped)
  }

  lemma OneQuestion(s: Setup, st: State, bars: seq<Bar>, i: nat)
    requires i < |bars| && st.open.None? && !st.sim.halted && st.asked == []
    ensures Evaluate(s, st, bars, i).asked != [] <==> s.strategy(Window(bars, i)).Some?
  {
  }

  lemma SpottingSees(bars: seq<Bar>, bar: Bar, k: nat)
    requires k < |bars|
    ensures After(Spotting(bar, k), bars, k + 1).asked != [] <==> bars[k] == bar
  {
    var s := Spotting(bar, k);
    var st := NewDay(Start(s), bars[k]);
    assert Manage(s, Fill(Start(s), bars[k], k), bars[k], k) == Start(s) && Manage(s, st, bars[k], k) == st;
    OneQuestion(s, st, bars, k);
    assert Window(bars, k)[|Window(bars, k)| - 1] == bars[k];
  }

  /** A backtest over an index of times does not look ahead, whatever strategy it runs, exactly when no later
      opening bar widens a range already in use: on one day always, over several days only by chance. */
  lemma ClockRunsLookAheadIff(bars: seq<Bar>, more: seq<Bar>, offset: int)
    ensures (forall s, n: nat | n <= |bars| ::
               After(s, ByClock(bars + more, offset), n) == After(s, ByClock(bars, offset), n))
            <==> Settled(bars, more, offset)
  {
    ClockColumnsStayIff(bars, more, offset);
    var all, own := ByClock(bars + more, offset), ByClock(bars, offset);
    if Settled(bars, more, offset) {
      forall s, n: nat | n <= |bars| ensures After(s, all, n) == After(s, own, n) {
        assert all[..n] == all[..|bars|][..n];
        SeenIsAll(s, all, own, n);
      }
    } else {
      var k :| 0 <= k < |bars| && all[k] != own[k];
      SpottingSees(all, own[k], k);
      SpottingSees(own, own[k], k);
      var s := Spotting(own[k], k);
      assert After(s, all, k + 1) != After(s, own, k + 1);
    }
  }

  /** The second day's opening bar, with a higher high, changes what the first day's 09:31 bar is given. */
  lemma SecondDayLeaks(first: Bar, second: Bar, next: Bar)
    requires first.time == RANGE_START && second.time == RANGE_END + 60_000 && next.time == 86_400_000 + RANGE_START
    requires next.high > first.high
    ensures ByClock([first, second, next], 0)[1] != ByClock([first, second], 0)[1]
  {
    var bars := [first, second];
    assert IsLater(bars[1], 0) && Opening(bars[..1], 0) == Opening([first], 0) == Some(Range(first.high, first.low));
    assert bars[..1] == [first] && Opening(bars, 0) == Some(Range(first.high, first.low));
    assert Opens([next][0], 0) && !Within(next, Opening(bars, 0));
    OpeningGrows(bars, [next], 0);
    assert bars + [next] == [first, second, next];
    StampTells(second, Opening([first, second, next], 0), Opening(bars, 0));
  }
}
