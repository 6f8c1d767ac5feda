/** What is booked to the daily P&L over whole runs, and for which trade. */
module LiveBookings {
  import opened Common
  import opened LiveOrders

  datatype Booking = Booking(trade: nat, pnl: real)

  /** What one event books. */
  function Books(live: bool, b: Book, e: Event): Option<Booking> {
    match e
    case Webhook(u) =>
      var i := Find(b.trades, u.id);
      if i == |b.trades| then None else BookingOf(i, OnUpdate(live, b.trades[i], u).pnl)
    case Reconcile(i, slAnswer, targetAnswer) =>
      if i >= |b.trades| then None else BookingOf(i, OnReconcile(live, b.trades[i], slAnswer, targetAnswer).pnl)
    case _ => None
  }

  function BookingOf(i: nat, pnl: Option<real>): Option<Booking> {
    if pnl.None? then None else Some(Booking(i, pnl.value))
  }

  function Bookings(live: bool, b: Book, es: seq<Event>): seq<Booking> {
    if es == [] then []
    else
      var us := es[..|es| - 1];
      Bookings(live, b, us) + match Books(live, Run(live, b, us), es[|es| - 1]) case None => [] case Some(x) => [x]
  }

  /** The price at which the event reports a leg of trade i complete, by webhook or by reconciliation. */
  function LegCompletion(live: bool, b: Book, e: Event, i: nat): Option<real> {
    if i >= |b.trades| then None
    else
      var t := b.trades[i];
      match e
      case Webhook(u) =>
        if Find(b.trades, u.id) == i && u.status == Complete && IsLeg(t, u.id) then Some(u.average) else None
      case Reconcile(j, slAnswer, targetAnswer) =>
        if j != i || !live || t.status != Open then None
        else if t.sl.Some? && slAnswer.LegComplete? then Some(slAnswer.average)
        else if t.target.Some? && targetAnswer.LegComplete? then Some(targetAnswer.average)
        else None
      case _ => None
  }

  /** How often a leg of trade i is reported complete during the run. */
  function Completions(live: bool, b: Book, es: seq<Event>, i: nat): nat {
    if es == [] then 0
    else
      var us := es[..|es| - 1];
      Completions(live, b, us, i) + if LegCompletion(live, Run(live, b, us), es[|es| - 1], i).Some? then 1 else 0
  }

  /** The results booked for trade i, in order. */
  function Of(bs: seq<Booking>, i: nat): seq<real> {
    if bs == [] then []
    else Of(bs[..|bs| - 1], i) + if bs[|bs| - 1].trade == i then [bs[|bs| - 1].pnl] else []
  }

  /** An event books for trade i exactly when it reports a leg of it complete, whatever its status: the net
      result at the reported price, which the trade then shows. */
  lemma BooksIffCompletion(live: bool, b: Book, e: Event, i: nat)
    requires i < |b.trades|
    ensures var x := Books(live, b, e);
            var p := LegCompletion(live, b, e, i);
            && (x.Some? && x.value.trade == i <==> p.Some?)
            && (p.Some? ==> x.value.pnl == NetPnl(b.trades[i], p.value))
            && Step(live, b, e).trades[i].realisedPnl == if p.Some? then x.value.pnl else b.trades[i].realisedPnl
  {
    match e
    case Webhook(u) =>
      if Find(b.trades, u.id) == i { UpdateBooks(live, b.trades[i], u); }
    case _ =>
  }

  lemma UpdateBooks(live: bool, t: Trade, u: Update)
    ensures var e := OnUpdate(live, t, u);
            && (e.pnl.Some? <==> u.status == Complete && IsLeg(t, u.id))
            && (e.pnl.Some? ==> e.pnl.value == NetPnl(t, u.average))
            && e.trade.realisedPnl == if e.pnl.Some? then e.pnl.value else t.realisedPnl
  {
  }

  lemma StepBooksFor(live: bool, b: Book, e: Event, i: nat) returns (c: Book, x: Option<Booking>, hit: bool)
    requires i < |b.trades|
    ensures c == Step(live, b, e) && x == Books(live, b, e) && hit == LegCompletion(live, b, e, i).Some?
    ensures hit <==> x.Some? && x.value.trade == i
    ensures c.trades[i].realisedPnl == if hit then x.value.pnl else b.trades[i].realisedPnl
  {
    BooksIffCompletion(live, b, e, i);
    c, x, hit := Step(live, b, e), Books(live, b, e), LegCompletion(live, b, e, i).Some?;
  }

  lemma {:induction false} RunBooksFor(live: bool, b: Book, es: seq<Event>, i: nat)
    returns (c: Book, bs: seq<Booking>, n: nat)
    requires i < |b.trades|
    ensures c == Run(live, b, es) && bs == Bookings(live, b, es) && n == Completions(live, b, es, i)
    ensures |Of(bs, i)| == n
    ensures c.trades[i].realisedPnl == if n == 0 then b.trades[i].realisedPnl else Of(bs, i)[n - 1]
  {
    if es == [] {
      c, bs, n := b, [], 0;
    } else {
      c, bs, n := RunBooksFor(live, b, es[..|es| - 1], i);
      var d, x, hit := StepBooksFor(live, c, es[|es| - 1], i);
      if x.Some? {
        OfSnoc(bs, x.value, i);
        bs := bs + [x.value];
      } else {
        assert bs + [] == bs;
      }
      c, n := d, n + if hit then 1 else 0;
    }
  }

  /** Over any run the bookings of a trade are its leg completions, one for one, and the trade shows the last:
      it is booked at most once exactly when at most one completion of its legs is reported. */
  lemma {:induction false} BookingsAreCompletions(live: bool, b: Book, es: seq<Event>, i: nat)
    requires i < |b.trades|
    ensures var booked := Of(Bookings(live, b, es), i);
            && |booked| == Completions(live, b, es, i)
            && Run(live, b, es).trades[i].realisedPnl
               == if booked == [] then b.trades[i].realisedPnl else booked[|booked| - 1]
  {
    var c, bs, n := RunBooksFor(live, b, es, i);
    assert Of(bs, i) == Of(Bookings(live, b, es), i);
    assert c.trades[i] == Run(live, b, es).trades[i];
  }

  lemma OfSnoc(bs: seq<Booking>, x: Booking, i: nat)
    ensures Of(bs + [x], i) == Of(bs, i) + if x.trade == i then [x.pnl] else []
  {
    assert (bs + [x])[..|bs|] == bs;
  }

  lemma SameResult(t: Trade, u: Trade, exit: real)
    requires t.isBuy == u.isBuy && t.entryPrice == u.entryPrice && t.filledQuantity == u.filledQuantity
    ensures NetPnl(t, exit) == NetPnl(u, exit)
  {
  }

  /** A trade with both legs recorded books both completions, the second although it is closed by then. */
  lemma SecondLegBooksAgain(live: bool, b: Book, i: nat, u: Update, v: Update)
    requires i < |b.trades| && u.status == Complete == v.status && u.id != v.id
    requires Find(b.trades, u.id) == Find(b.trades, v.id) == i && IsLeg(b.trades[i], u.id) && IsLeg(b.trades[i], v.id)
    ensures var first := Step(live, b, Webhook(u));
            && first.trades[i].status == Closed
            && Books(live, b, Webhook(u)) == Some(Booking(i, NetPnl(b.trades[i], u.average)))
            && Books(live, first, Webhook(v)) == Some(Booking(i, NetPnl(b.trades[i], v.average)))
  {
    var first := Step(live, b, Webhook(u));
    var t := b.trades[i];
    assert first.trades == b.trades[i := CloseByLeg(live, t, t.sl == Some(u.id), u.average).trade];
    SameOwners(b.trades, first.trades, v.id);
    SameResult(t, first.trades[i], v.average);
    BooksIffCompletion(live, b, Webhook(u), i);
    BooksIffCompletion(live, first, Webhook(v), i);
  }

  lemma {:induction false} SameOwners(ts: seq<Trade>, us: seq<Trade>, id: OrderId)
    requires |ts| == |us| && forall k :: 0 <= k < |ts| ==> (Owns(ts[k], id) <==> Owns(us[k], id))
    ensures Find(ts, id) == Find(us, id)
  {
    if ts != [] { SameOwners(ts[1..], us[1..], id); }
  }

  // ---------------------------------------------------------------- the daily P&L

  function Total(bs: seq<Booking>): real {
    if bs == [] then 0.0 else Total(bs[..|bs| - 1]) + bs[|bs| - 1].pnl
  }

  predicate Near(a: real, b: real, roundings: nat) { Abs(a - b) <= 0.005 * roundings as real }

  lemma OneMoreRounding(a: real, b: real, x: real, n: nat)
    requires Near(a, b, n)
    ensures Near(Round2(a + x), b + x, n + 1)
  {
    Round2Close(a + x);
  }

  /** The daily P&L is the opening one plus all bookings, up to one rounding a booking. */
  lemma {:induction false} DailyPnlIsBookings(live: bool, b: Book, es: seq<Event>)
    returns (c: Book, bs: seq<Booking>)
    requires b.dailyPnl.Some?
    ensures c == Run(live, b, es) && bs == Bookings(live, b, es)
    ensures c.dailyPnl.Some? && Near(c.dailyPnl.value, b.dailyPnl.value + Total(bs), |bs|)
  {
    if es == [] {
      c, bs := b, [];
    } else {
      c, bs := DailyPnlIsBookings(live, b, es[..|es| - 1]);
      var d, x := StepBooks(live, c, es[|es| - 1]);
      if x.Some? {
        OneMoreRounding(c.dailyPnl.value, b.dailyPnl.value + Total(bs), x.value.pnl, |bs|);
        assert (bs + [x.value])[..|bs|] == bs;
        bs := bs + [x.value];
      } else {
        assert bs + [] == bs;
      }
      c := d;
    }
  }

  lemma StepBooks(live: bool, b: Book, e: Event) returns (c: Book, x: Option<Booking>)
    ensures c == Step(live, b, e) && x == Books(live, b, e)
    ensures c.dailyPnl == if x.None? then b.dailyPnl else Booked(b.dailyPnl, Some(x.value.pnl))
  {
    c, x := Step(live, b, e), Books(live, b, e);
  }

  /** The results the first n trades show, of those that were booked. */
  function Shown(b: Book, bs: seq<Booking>, n: nat): real
    requires n <= |b.trades|
  {
    if n == 0 then 0.0
    else Shown(b, bs, n - 1) + if Of(bs, n - 1) == [] then 0.0 else b.trades[n - 1].realisedPnl
  }

  /** Bookings of the first n trades that a later one of the same trade replaced. */
  function Superseded(bs: seq<Booking>, n: nat): real {
    if n == 0 then 0.0
    else
      var xs := Of(bs, n - 1);
      Superseded(bs, n - 1) + if xs == [] then 0.0 else Sum(xs[..|xs| - 1])
  }

  /** The day's P&L exceeds what the trades show by exactly the bookings that were superseded, up to
      rounding. */
  lemma {:induction false} DailyPnlIsShown(live: bool, b: Book, es: seq<Event>) returns (after: Book, bs: seq<Booking>)
    requires b.dailyPnl.Some?
    ensures after == Run(live, b, es) && bs == Bookings(live, b, es) && after.dailyPnl.Some?
    ensures var n := |b.trades|;
            Near(after.dailyPnl.value, b.dailyPnl.value + (Shown(after, bs, n) + Superseded(bs, n)), |bs|)
  {
    var n := |b.trades|;
    after, bs := DailyPnlIsBookings(live, b, es);
    var _, _ := RunShows(live, b, es);
    var _ := BookingsInRange(live, b, es);
    BookingsByTrade(b, after, bs, n);
  }

  ghost predicate InRange(bs: seq<Booking>, n: nat) { forall k :: 0 <= k < |bs| ==> bs[k].trade < n }

  lemma BookingsByTrade(b: Book, after: Book, bs: seq<Booking>, n: nat)
    requires Shows(b, after, bs) && n == |b.trades| && InRange(bs, n)
    ensures Total(bs) == Shown(after, bs, n) + Superseded(bs, n)
  {
    TotalByTrade(bs, n);
    ShownAndSuperseded(b, after, bs, n);
  }

  /** That is nothing when no trade has two leg completions. */
  lemma {:induction false} NothingSuperseded(live: bool, b: Book, es: seq<Event>)
    requires forall i :: 0 <= i < |b.trades| ==> Completions(live, b, es, i) <= 1
    ensures Superseded(Bookings(live, b, es), |b.trades|) == 0.0
  {
    forall i | 0 <= i < |b.trades| ensures |Of(Bookings(live, b, es), i)| <= 1 {
      BookingsAreCompletions(live, b, es, i);
    }
    NoneSuperseded(Bookings(live, b, es), |b.trades|);
  }

  function Last(x: real, xs: seq<real>): real { if xs == [] then x else xs[|xs| - 1] }

  /** Every trade shows its last booking. */
  ghost predicate Shows(b: Book, c: Book, bs: seq<Booking>) {
    |c.trades| == |b.trades| && forall i :: 0 <= i < |b.trades| ==>
      c.trades[i].realisedPnl == Last(b.trades[i].realisedPnl, Of(bs, i))
  }

  lemma ShowsStep(live: bool, b: Book, c: Book, bs: seq<Booking>, e: Event) returns (d: Book, x: Option<Booking>)
    requires Shows(b, c, bs)
    ensures d == Step(live, c, e) && x == Books(live, c, e)
    ensures Shows(b, d, bs + if x.None? then [] else [x.value])
  {
    d, x := Step(live, c, e), Books(live, c, e);
    forall i | 0 <= i < |b.trades|
      ensures d.trades[i].realisedPnl
              == Last(b.trades[i].realisedPnl, Of(bs + if x.None? then [] else [x.value], i))
    {
      var d', x', hit := StepBooksFor(live, c, e, i);
      if x.Some? { OfSnoc(bs, x.value, i); } else { assert bs + [] == bs; }
    }
  }

  lemma {:induction false} RunShows(live: bool, b: Book, es: seq<Event>) returns (c: Book, bs: seq<Booking>)
    ensures c == Run(live, b, es) && bs == Bookings(live, b, es) && Shows(b, c, bs)
  {
    if es == [] {
      c, bs := b, [];
    } else {
      c, bs := RunShows(live, b, es[..|es| - 1]);
      var d, x := ShowsStep(live, b, c, bs, es[|es| - 1]);
      c, bs := d, bs + if x.None? then [] else [x.value];
    }
  }

  lemma {:induction false} BookingsInRange(live: bool, b: Book, es: seq<Event>) returns (bs: seq<Booking>)
    ensures bs == Bookings(live, b, es) && InRange(bs, |b.trades|)
  {
    if es == [] {
      bs := [];
    } else {
      bs := BookingsInRange(live, b, es[..|es| - 1]);
      var _, x := StepBooks(live, Run(live, b, es[..|es| - 1]), es[|es| - 1]);
      bs := bs + if x.None? then [] else [x.value];
    }
  }

  function ByTrade(bs: seq<Booking>, n: nat): real {
    if n == 0 then 0.0 else ByTrade(bs, n - 1) + Sum(Of(bs, n - 1))
  }

  lemma TotalSnoc(bs: seq<Booking>, x: Booking)
    ensures Total(bs + [x]) == Total(bs) + x.pnl
  {
    assert (bs + [x])[..|bs|] == bs;
  }

  lemma {:induction false} TotalByTrade(bs: seq<Booking>, n: nat)
    requires InRange(bs, n)
    ensures Total(bs) == ByTrade(bs, n)
  {
    if bs == [] {
      NoneByTrade(n);
    } else {
      TotalByTrade(bs[..|bs| - 1], n);
      OneMoreByTrade(bs[..|bs| - 1], bs[|bs| - 1], n);
      assert bs == bs[..|bs| - 1] + [bs[|bs| - 1]];
    }
  }

  lemma OneMoreByTrade(bs: seq<Booking>, x: Booking, n: nat)
    requires x.trade < n
    ensures Total(bs + [x]) - ByTrade(bs + [x], n) == Total(bs) - ByTrade(bs, n)
  {
    TotalSnoc(bs, x);
    ByTradeSnoc(bs, x, n);
  }

  lemma {:induction false} NoneByTrade(n: nat)
    ensures ByTrade([], n) == 0.0
  {
    if n > 0 { NoneByTrade(n - 1); }
  }

  lemma {:induction false} ByTradeSnoc(bs: seq<Booking>, x: Booking, n: nat)
    ensures ByTrade(bs + [x], n) == ByTrade(bs, n) + if x.trade < n then x.pnl else 0.0
  {
    if n > 0 {
      ByTradeSnoc(bs, x, n - 1);
      OfSnoc(bs, x, n - 1);
      var xs := Of(bs, n - 1);
      assert (xs + [x.pnl])[..|xs|] == xs && xs + [] == xs;
    }
  }

  lemma {:induction false} ShownAndSuperseded(b: Book, after: Book, bs: seq<Booking>, n: nat)
    requires Shows(b, after, bs) && n <= |b.trades|
    ensures ByTrade(bs, n) == Shown(after, bs, n) + Superseded(bs, n)
  {
    if n > 0 { ShownAndSuperseded(b, after, bs, n - 1); }
  }

  lemma {:induction false} NoneSuperseded(bs: seq<Booking>, n: nat)
    requires forall i :: 0 <= i < n ==> |Of(bs, i)| <= 1
    ensures Superseded(bs, n) == 0.0
  {
    if n > 0 { NoneSuperseded(bs, n - 1); }
  }
}
