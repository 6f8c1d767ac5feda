/** What is booked, in money, and what a fill leaves with the broker: laws of the whole step, whatever functions it
    is made of. */
module LiveResults {
  import opened Common
  import opened LiveOrders
  import opened LiveOrderTheorems
  import opened LiveRedelivery
  import opened LiveBookings

  /** What the trade shows after an event. */
  function Shown(live: bool, b: Book, e: Event, i: nat): real
    requires i < |b.trades|
  {
    Step(live, b, e).trades[i].realisedPnl
  }

  // ---------------------------------------------------------------- the booked result

  lemma ShownIsNet(live: bool, b: Book, e: Event, i: nat)
    requires i < |b.trades| && LegCompletion(live, b, e, i).Some?
    ensures Shown(live, b, e, i) == NetPnl(b.trades[i], LegCompletion(live, b, e, i).value)
    ensures Books(live, b, e) == Some(Booking(i, Shown(live, b, e, i)))
  {
    BooksIffCompletion(live, b, e, i);
  }

  lemma Distribute(filled: real, a: real, p: real, q: real)
    ensures (q - a) * filled - (p - a) * filled == filled * (q - p)
    ensures (q - a) * filled - (p - a) * filled == -(filled * (p - q))
  {
  }

  lemma NetDiffers(t: Trade, p: real, q: real)
    requires t.entryPrice != 0.0 && p != 0.0 && q != 0.0
    ensures var filled := t.filledQuantity as real;
            NetPnl(t, q) - NetPnl(t, p) == if t.isBuy then filled * (q - p) else filled * (p - q)
  {
    Distribute(t.filledQuantity as real, t.entryPrice, p, q);
  }

  /** Of two prices at which the legs of a trade may complete, the booked results differ by the filled shares times
      the difference: a BUY gains what a SELL loses. */
  lemma ResultsDiffer(live: bool, b: Book, i: nat, e: Event, f: Event)
    requires i < |b.trades| && b.trades[i].entryPrice != 0.0
    requires LegCompletion(live, b, e, i).Some? && LegCompletion(live, b, e, i).value != 0.0
    requires LegCompletion(live, b, f, i).Some? && LegCompletion(live, b, f, i).value != 0.0
    ensures var p, q := LegCompletion(live, b, e, i).value, LegCompletion(live, b, f, i).value;
            var filled := b.trades[i].filledQuantity as real;
            Shown(live, b, f, i) - Shown(live, b, e, i)
            == if b.trades[i].isBuy then filled * (q - p) else filled * (p - q)
  {
    ShownIsNet(live, b, e, i);
    ShownIsNet(live, b, f, i);
    NetDiffers(b.trades[i], LegCompletion(live, b, e, i).value, LegCompletion(live, b, f, i).value);
  }

  /** What a round trip costs: 40 and a two-thousandth of the entry value. */
  function Cost(t: Trade): real { 40.0 + t.filledQuantity as real * t.entryPrice / 2000.0 }

  lemma EvenNet(t: Trade, p: real)
    ensures t.entryPrice != 0.0 && p == t.entryPrice ==> NetPnl(t, p) == -Cost(t)
    ensures t.entryPrice == 0.0 || p == 0.0 ==> NetPnl(t, p) == 0.0
  {
    var filled := t.filledQuantity as real;
    var value := t.entryPrice * filled;
    assert filled * t.entryPrice == value && value * 0.0005 == value / 2000.0;
    if p == t.entryPrice { assert (p - t.entryPrice) * filled == 0.0; }
  }

  /** A completion at the entry price books the cost alone; one of which a price is missing books nothing. */
  lemma EvenExitCosts(live: bool, b: Book, i: nat, e: Event)
    requires i < |b.trades| && LegCompletion(live, b, e, i).Some?
    ensures var t, p := b.trades[i], LegCompletion(live, b, e, i).value;
            && (t.entryPrice != 0.0 && p == t.entryPrice ==> Shown(live, b, e, i) == -Cost(t))
            && (t.entryPrice == 0.0 || p == 0.0 ==> Shown(live, b, e, i) == 0.0)
  {
    ShownIsNet(live, b, e, i);
    EvenNet(b.trades[i], LegCompletion(live, b, e, i).value);
  }

  /** The day's P&L moves by the booked result, to a whole hundredth next to it. */
  lemma DayMovesByResult(live: bool, b: Book, i: nat, e: Event)
    requires i < |b.trades| && LegCompletion(live, b, e, i).Some? && b.dailyPnl.Some?
    ensures var c := Step(live, b, e);
            c.dailyPnl.Some? && Hundredths(c.dailyPnl.value)
            && Abs(c.dailyPnl.value - (b.dailyPnl.value + Shown(live, b, e, i))) <= 0.005
  {
    ShownIsNet(live, b, e, i);
    var _, _ := StepBooks(live, b, e);
    Round2Close(b.dailyPnl.value + Shown(live, b, e, i));
    Round2IsHundredths(b.dailyPnl.value + Shown(live, b, e, i));
  }

  /** The trade is closed at the reported price, and says which leg it was. */
  lemma ClosedAsReported(live: bool, b: Book, i: nat, u: Update)
    requires Find(b.trades, u.id) == i < |b.trades| && u.status == Complete && IsLeg(b.trades[i], u.id)
    ensures var t := Step(live, b, Webhook(u)).trades[i];
            && t.status == Closed && t.exitPrice == u.average
            && (t.closeReason == StopLoss <==> b.trades[i].sl == Some(u.id))
            && (t.closeReason == Target <==> b.trades[i].sl != Some(u.id))
  {
    UpdatesOne(live, b, u);
  }

  /** Reconciliation of an open trade asks about the stop first, and closes at the first complete answer. */
  lemma ReconciledAsAnswered(b: Book, i: nat, stop: LegAnswer, target: LegAnswer)
    requires i < |b.trades| && b.trades[i].status == Open
    ensures var t, s := b.trades[i], Step(true, b, Reconcile(i, stop, target)).trades[i];
            && (t.sl.Some? && stop.LegComplete? ==>
                  s.status == Closed && s.exitPrice == stop.average && s.closeReason == StopLoss)
            && (!(t.sl.Some? && stop.LegComplete?) && t.target.Some? && target.LegComplete? ==>
                  s.status == Closed && s.exitPrice == target.average && s.closeReason == Target)
            && (!(t.sl.Some? && stop.LegComplete?) && !(t.target.Some? && target.LegComplete?) ==> s == t)
  {
  }

  // ---------------------------------------------------------------- what a fill leaves

  /** A fill of the entry order of trade i: complete and not known yet, active, or what a dropped order had filled. */
  predicate Fills(b: Book, i: nat, u: Update) {
    && Find(b.trades, u.id) == i < |b.trades| && !IsLeg(b.trades[i], u.id)
    && match u.status
       case Complete =>
         !(b.trades[i].status == Open && b.trades[i].sl.Some? && b.trades[i].quantity == u.filled)
       case Other => false
       case _ => u.filled > 0
  }

  /** In live mode every fill of the entry order is protected: the trade is open for the filled shares, its old legs
      are enqueued for cancellation, and a stop and a target at positive prices are what the broker answered, sent
      for that many shares. */
  lemma FillIsProtected(b: Book, i: nat, u: Update)
    requires Fills(b, i, u)
    ensures var c := Step(true, b, Webhook(u));
            var t, s := b.trades[i], c.trades[i];
            && s.status == Open && s.quantity == s.filledQuantity == u.filled && s.averagePrice == u.average
            && (t.stopLoss > 0.0 ==> s.sl == u.slReply) && (t.stopLoss <= 0.0 ==> s.sl == None)
            && (t.targetPrice > 0.0 ==> s.target == u.targetReply) && (t.targetPrice <= 0.0 ==> s.target == None)
            && (t.sl.Some? ==> t.sl.value in c.cancels) && (t.target.Some? ==> t.target.value in c.cancels)
            && (s.sl.Some? ==> (i, Leg(s.sl.value, u.filled)) in c.placed)
            && (s.target.Some? ==> (i, Leg(s.target.value, u.filled)) in c.placed)
  {
    UpdatesOne(true, b, u);
    var e := OnUpdate(true, b.trades[i], u);
    var c := Step(true, b, Webhook(u));
    assert c.placed == b.placed + Placements(i, e.legs) && c.cancels == b.cancels + e.cancels;
    FillEffect(b.trades[i], u);
    if e.trade.sl.Some? { PlacedIsThere(b, i, e.legs, Leg(e.trade.sl.value, u.filled)); }
    if e.trade.target.Some? { PlacedIsThere(b, i, e.legs, Leg(e.trade.target.value, u.filled)); }
  }

  lemma PlacedIsThere(b: Book, i: nat, legs: seq<Leg>, l: Leg)
    requires l in legs
    ensures (i, l) in b.placed + Placements(i, legs)
  {
    var k :| 0 <= k < |legs| && legs[k] == l;
    assert Placements(i, legs)[k] == (i, l);
    assert (b.placed + Placements(i, legs))[|b.placed| + k] == (i, l);
  }

  lemma FillEffect(t: Trade, u: Update)
    requires !IsLeg(t, u.id)
    requires match u.status
             case Complete => !(t.status == Open && t.sl.Some? && t.quantity == u.filled)
             case Other => false
             case _ => u.filled > 0
    ensures var e := OnUpdate(true, t, u);
            && e.cancels == Ids(t.sl) + Ids(t.target)
            && (e.trade.sl.Some? ==> Leg(e.trade.sl.value, u.filled) in e.legs)
            && (e.trade.target.Some? ==> Leg(e.trade.target.value, u.filled) in e.legs)
  {
    var e := OnUpdate(true, t, u);
    if e.trade.sl.Some? { assert e.legs[0] == Leg(e.trade.sl.value, u.filled); }
    if e.trade.target.Some? { assert e.legs[|e.legs| - 1] == Leg(e.trade.target.value, u.filled); }
  }

  /** The price of the position: what the completion reports, or the last positive price of a partial fill. */
  lemma FillSetsEntry(live: bool, b: Book, i: nat, u: Update)
    requires Fills(b, i, u)
    ensures var s := Step(live, b, Webhook(u)).trades[i];
            s.entryPrice == if u.status == Complete || (u.status == Working && u.average > 0.0) then u.average
                            else b.trades[i].entryPrice
  {
    UpdatesOne(live, b, u);
  }

  /** What the filled shares lose between entry and stop. */
  function Loss(t: Trade, stop: real): real { Worth(t.filledQuantity, Abs(t.entryPrice - stop)) }

  lemma PartialRisk(live: bool, t: Trade, u: Update)
    requires u.status == Working && u.filled > 0 && !IsLeg(t, u.id)
    requires t.stopLoss != if u.average > 0.0 then u.average else t.entryPrice
    ensures var s := OnUpdate(live, t, u).trade;
            && s.filledQuantity == u.filled && s.isBuy == t.isBuy && s.stopLoss == t.stopLoss
            && s.entryPrice == (if u.average > 0.0 then u.average else t.entryPrice)
            && s.riskAmount == Round2(Loss(s, t.stopLoss))
  {
    var s := OnUpdate(live, t, u).trade;
    assert s.riskAmount == RiskOf(u.filled, Abs(s.entryPrice - t.stopLoss));
  }

  lemma Flip(x: real, y: real)
    ensures x * -y == -(y * x) && x * y == y * x
  {
  }

  lemma NetAtStop(t: Trade, stop: real)
    requires t.entryPrice > 0.0 && stop > 0.0 && if t.isBuy then stop < t.entryPrice else stop > t.entryPrice
    ensures NetPnl(t, stop) == -Loss(t, stop) - Cost(t)
  {
    var filled := t.filledQuantity as real;
    var move, value := (stop - t.entryPrice) * filled, t.entryPrice * filled;
    assert NetPnl(t, stop) == (if t.isBuy then move else -move) - (40.0 + value * 0.0005);
    assert filled * t.entryPrice == value && value * 0.0005 == value / 2000.0;
    assert Cost(t) == 40.0 + value * 0.0005;
    var gap := if t.isBuy then t.entryPrice - stop else stop - t.entryPrice;
    assert Abs(t.entryPrice - stop) == gap;
    Flip(filled, stop - t.entryPrice);
    assert Loss(t, stop) == filled * gap == if t.isBuy then -move else move;
  }

  lemma NearlyCancel(net: real, risk: real, loss: real, cost: real)
    requires net == -loss - cost && risk == Round2(loss)
    ensures Abs(net + risk + cost) <= 0.005
  {
    Round2Close(loss);
  }

  /** The risk a partial fill records is what its stop would lose, to the nearest hundredth and before costs: booked
      at the stop, the result is minus the risk and the cost. */
  lemma RiskIsLossAtStop(t: Trade, live: bool, u: Update)
    requires u.status == Working && u.filled > 0 && !IsLeg(t, u.id) && t.stopLoss > 0.0
    requires var entry := if u.average > 0.0 then u.average else t.entryPrice;
             entry > 0.0 && if t.isBuy then t.stopLoss < entry else t.stopLoss > entry
    ensures var s := OnUpdate(live, t, u).trade; Abs(NetPnl(s, t.stopLoss) + s.riskAmount + Cost(s)) <= 0.005
  {
    var s := OnUpdate(live, t, u).trade;
    PartialRisk(live, t, u);
    NetAtStop(s, t.stopLoss);
    NearlyCancel(NetPnl(s, t.stopLoss), s.riskAmount, Loss(s, t.stopLoss), Cost(s));
  }

  // ---------------------------------------------------------------- retries, drops, market closes

  /** A retry with positive prices and a willing broker leaves an unclosed trade with both legs, the old ones where
      there were any, and cancels nothing. */
  lemma RetryCompletes(b: Book, i: nat, stopLoss: real, targetPrice: real, s: OrderId, g: OrderId)
    requires i < |b.trades| && b.trades[i].status !in {Closed, Rejected, Cancelled}
    requires stopLoss > 0.0 && targetPrice > 0.0
    ensures var c := Step(true, b, Protect(i, stopLoss, targetPrice, Some(s), Some(g)));
            && c.cancels == b.cancels
            && c.trades[i] == b.trades[i].(sl := if b.trades[i].sl.Some? then b.trades[i].sl else Some(s),
                                           target := if b.trades[i].target.Some? then b.trades[i].target else Some(g))
            && (b.trades[i].sl.None? ==> (i, Leg(s, b.trades[i].quantity)) in c.placed)
            && (b.trades[i].target.None? ==> (i, Leg(g, b.trades[i].quantity)) in c.placed)
  {
    var legs := OnProtect(true, b.trades[i], stopLoss, targetPrice, Some(s), Some(g)).legs;
    var l, m := Leg(s, b.trades[i].quantity), Leg(g, b.trades[i].quantity);
    if b.trades[i].sl.None? { assert legs[0] == l; PlacedIsThere(b, i, legs, l); }
    if b.trades[i].target.None? { assert legs[|legs| - 1] == m; PlacedIsThere(b, i, legs, m); }
  }

  /** A retry leaves a trade alone that is closed, rejected or cancelled, whatever the broker would answer. */
  lemma RetryLeavesClosed(live: bool, b: Book, i: nat, e: Event)
    requires e.Protect? && e.trade == i < |b.trades| && b.trades[i].status in {Closed, Rejected, Cancelled}
    ensures var c := Step(live, b, e);
            c.trades == b.trades && c.placed == b.placed && c.cancels == b.cancels && c.dailyPnl == b.dailyPnl
  {
    assert b.trades[i := b.trades[i]] == b.trades;
  }

  /** A rejected or cancelled leg is forgotten, and nothing else about the trade changes. */
  lemma DroppedLegIsForgotten(live: bool, b: Book, i: nat, u: Update)
    requires Find(b.trades, u.id) == i < |b.trades| && IsLeg(b.trades[i], u.id)
    requires u.status in {OrderRejected, OrderCancelled}
    ensures var t, c := b.trades[i], Step(live, b, Webhook(u));
            && !IsLeg(c.trades[i], u.id) && c.trades[i] == t.(sl := c.trades[i].sl, target := c.trades[i].target)
            && (forall id :: id != u.id ==> (IsLeg(c.trades[i], id) <==> IsLeg(t, id)))
            && c.cancels == b.cancels && c.dailyPnl == b.dailyPnl
  {
    UpdatesOne(live, b, u);
  }

  /** An entry order dropped with nothing filled closes the trade and says why. */
  lemma DroppedEntryCloses(live: bool, b: Book, i: nat, u: Update)
    requires Find(b.trades, u.id) == i < |b.trades| && !IsLeg(b.trades[i], u.id) && u.filled <= 0
    requires u.status in {OrderRejected, OrderCancelled}
    ensures var t := Step(live, b, Webhook(u)).trades[i];
            && t.status == Closed && (t.closeReason == EntryRejected <==> u.status == OrderRejected)
            && (t.closeReason == EntryCancelled <==> u.status == OrderCancelled)
  {
    UpdatesOne(live, b, u);
  }

  /** A market close in live mode sends both legs for cancellation, and an accepted one takes the target's place, for
      the whole quantity. */
  lemma MarketCloseReplacesLegs(b: Book, i: nat, reply: CloseReply)
    requires i < |b.trades| && b.trades[i].hasInstrument
    ensures var t, c := b.trades[i], Step(true, b, MarketClose(i, reply));
            && c.trades[i].sl == None && c.trades[i].status == t.status
            && (t.sl.Some? ==> t.sl.value in c.cancels) && (t.target.Some? ==> t.target.value in c.cancels)
            && c.trades[i].target == (if reply.CloseAccepted? then reply.id else None)
            && (c.trades[i].target.Some? ==> (i, Leg(c.trades[i].target.value, t.quantity)) in c.placed)
  {
    var e := OnMarketClose(true, b.trades[i], reply);
    if e.trade.target.Some? {
      assert e.legs[0] == Leg(e.trade.target.value, b.trades[i].quantity);
      PlacedIsThere(b, i, e.legs, e.legs[0]);
    }
  }
}
