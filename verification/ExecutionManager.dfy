/** The execution manager: live trades as objects, updated in place by broker events. */
module ExecutionManager {
  import opened Common
  import opened LiveOrders

  class LiveTrade {
    const isBuy: bool
    const hasInstrument: bool
    const brokerOrderId: OrderId
    const stopLoss: real
    const targetPrice: real
    var status: Status
    var quantity: int
    var filledQuantity: int
    var entryPrice: real
    var averagePrice: real
    var riskAmount: real
    var exitPrice: real
    var closeReason: CloseReason
    var realisedPnl: real
    var slOrderId: Option<OrderId>
    var targetOrderId: Option<OrderId>

    function View(): Trade
      reads this
    {
      Trade(isBuy, hasInstrument, brokerOrderId, stopLoss, targetPrice, status, quantity, filledQuantity,
            entryPrice, averagePrice, riskAmount, exitPrice, closeReason, realisedPnl, slOrderId, targetOrderId)
    }

    /** A PENDING trade whose entry order the broker has accepted. */
    constructor (isBuy: bool, hasInstrument: bool, brokerOrderId: OrderId, quantity: int, entryPrice: real,
                 stopLoss: real, targetPrice: real)
      ensures View() == Trade(isBuy, hasInstrument, brokerOrderId, stopLoss, targetPrice, Pending, quantity, 0,
                              entryPrice, 0.0, 0.0, 0.0, NotClosed, 0.0, None, None)
    {
      this.isBuy, this.hasInstrument, this.brokerOrderId := isBuy, hasInstrument, brokerOrderId;
      this.stopLoss, this.targetPrice, this.quantity, this.entryPrice := stopLoss, targetPrice, quantity, entryPrice;
      status, filledQuantity, averagePrice, riskAmount, exitPrice := Pending, 0, 0.0, 0.0, 0.0;
      closeReason, realisedPnl, slOrderId, targetOrderId := NotClosed, 0.0, None, None;
    }
  }

  predicate NeedsNothing(t: Trade) {
    t.status in {Closed, Rejected, Cancelled} || (t.sl.Some? && t.target.Some?)
  }

  /** The trade is gone or closed, or it has both legs. */
  predicate NeedsNoProtection(trades: seq<Trade>, i: nat) { i >= |trades| || NeedsNothing(trades[i]) }

  function ProtectEvents(i: nat, stopLoss: real, targetPrice: real,
                         replies: seq<(Option<OrderId>, Option<OrderId>)>): (es: seq<Event>)
    ensures |es| == |replies|
  {
    seq(|replies|, k requires 0 <= k < |replies| => Protect(i, stopLoss, targetPrice, replies[k].0, replies[k].1))
  }

  lemma ProtectEventsSnoc(i: nat, stopLoss: real, targetPrice: real,
                          replies: seq<(Option<OrderId>, Option<OrderId>)>, n: nat)
    requires n < |replies|
    ensures var es := ProtectEvents(i, stopLoss, targetPrice, replies[..n + 1]);
            && es[..n] == ProtectEvents(i, stopLoss, targetPrice, replies[..n])
            && es[n] == Protect(i, stopLoss, targetPrice, replies[n].0, replies[n].1)
  {}

  /** An order sent to the broker and accepted: for which trade, under which id, for how many shares. */
  datatype Sent = Sent(trade: LiveTrade, leg: Leg)

  function AllSent(t: LiveTrade, legs: seq<Leg>): (r: seq<Sent>)
    ensures |r| == |legs| && forall k :: 0 <= k < |legs| ==> r[k] == Sent(t, legs[k])
  {
    seq(|legs|, k requires 0 <= k < |legs| => Sent(t, legs[k]))
  }

  lemma AllSentConcat(t: LiveTrade, a: seq<Leg>, b: seq<Leg>)
    ensures AllSent(t, a + b) == AllSent(t, a) + AllSent(t, b)
  {
  }

  /** What was sent is what the book says was placed, in order. */
  ghost predicate IsPlaced(sent: seq<Sent>, trades: seq<LiveTrade>, placed: seq<(nat, Leg)>) {
    |sent| == |placed| && forall k :: 0 <= k < |sent| ==>
      placed[k].0 < |trades| && sent[k] == Sent(trades[placed[k].0], placed[k].1)
  }

  lemma PlacedGrows(sent: seq<Sent>, trades: seq<LiveTrade>, placed: seq<(nat, Leg)>, i: nat, legs: seq<Leg>)
    requires IsPlaced(sent, trades, placed) && i < |trades|
    ensures IsPlaced(sent + AllSent(trades[i], legs), trades, placed + Placements(i, legs))
  {
  }

  class Manager {
    const live: bool
    var trades: seq<LiveTrade>
    var sent: seq<Sent>
    var cancelQueue: seq<OrderId>
    var dailyPnl: Option<real>
    ghost var book: Book

    ghost predicate Valid()
      reads this, trades
    {
      && |trades| == |book.trades| && cancelQueue == book.cancels && dailyPnl == book.dailyPnl
      && (forall i, j :: 0 <= i < j < |trades| ==> trades[i] != trades[j])
      && (forall i :: 0 <= i < |trades| ==> book.trades[i] == trades[i].View())
      && IsPlaced(sent, trades, book.placed)
    }

    constructor (live: bool, dailyPnl: Option<real>)
      ensures Valid() && Initial(book) && trades == [] && this.live == live && this.dailyPnl == dailyPnl
    {
      this.live, trades, sent, cancelQueue, this.dailyPnl := live, [], [], [], dailyPnl;
      book := Book([], [], dailyPnl, [], {}, map[]);
    }

    method Register(t: LiveTrade)
      requires Valid() && t !in trades
      modifies this
      ensures Valid() && book == old(book).(trades := old(book.trades) + [t.View()])
      ensures trades == old(trades) + [t]
    {
      trades := trades + [t];
      book := book.(trades := book.trades + [t.View()]);
    }

    /** Any trade that owns the order id, by entry, stop or target. */
    method FindTrade(id: OrderId) returns (i: nat)
      requires Valid()
      ensures i == Find(book.trades, id)
    {
      i := 0;
      while i < |trades| && !(trades[i].brokerOrderId == id || trades[i].slOrderId == Some(id)
                              || trades[i].targetOrderId == Some(id))
        invariant i <= |trades|
        invariant forall j :: 0 <= j < i ==> !Owns(book.trades[j], id)
      {
        i := i + 1;
      }
      FindIsFirst(book.trades, id, i);
    }

    method EnqueueCancel(id: Option<OrderId>)
      modifies `cancelQueue
      ensures cancelQueue == old(cancelQueue) + Ids(id)
    {
      if id.Some? {
        cancelQueue := cancelQueue + [id.value];
      }
    }

    /** The SL-M order for the trade's present quantity: the broker is asked only with credentials and a
        positive trigger. */
    method PlaceSlOrder(t: LiveTrade, triggerPrice: real, reply: Option<OrderId>) returns (id: Option<OrderId>)
      modifies `sent
      ensures id == PlaceLeg(live, triggerPrice, reply) && sent == old(sent) + AllSent(t, LegOf(id, t.quantity))
    {
      if !live || triggerPrice <= 0.0 {
        return None;
      }
      if reply.Some? {
        sent := sent + [Sent(t, Leg(reply.value, t.quantity))];
      }
      return reply;
    }

    method PlaceTargetOrder(t: LiveTrade, limitPrice: real, reply: Option<OrderId>) returns (id: Option<OrderId>)
      modifies `sent
      ensures id == PlaceLeg(live, limitPrice, reply) && sent == old(sent) + AllSent(t, LegOf(id, t.quantity))
    {
      if !live || limitPrice <= 0.0 {
        return None;
      }
      if reply.Some? {
        sent := sent + [Sent(t, Leg(reply.value, t.quantity))];
      }
      return reply;
    }

    /** Clears the recorded legs, enqueues them for cancellation, and places legs of the present quantity. */
    method ReplaceLegs(t: LiveTrade, u: Update)
      modifies t, `cancelQueue, `sent
      ensures var e := Reprotect(live, old(t.View()), u.slReply, u.targetReply);
              t.View() == e.trade && cancelQueue == old(cancelQueue) + e.cancels
              && sent == old(sent) + AllSent(t, e.legs)
    {
      if live {
        var oldSl, oldTarget := t.slOrderId, t.targetOrderId;
        t.slOrderId, t.targetOrderId := None, None;
        EnqueueCancel(oldSl);
        EnqueueCancel(oldTarget);
        var newSl := PlaceSlOrder(t, t.stopLoss, u.slReply);
        var newTarget := PlaceTargetOrder(t, t.targetPrice, u.targetReply);
        t.slOrderId, t.targetOrderId := newSl, newTarget;
      }
    }

    method NetResult(t: LiveTrade, exit: real) returns (pnl: real)
      ensures pnl == NetPnl(t.View(), exit)
    {
      pnl := 0.0;
      if t.entryPrice != 0.0 && exit != 0.0 {
        pnl := (exit - t.entryPrice) * t.filledQuantity as real;
        if !t.isBuy {
          pnl := -pnl;
        }
        var cost := 40.0 + t.entryPrice * t.filledQuantity as real * 0.0005;
        pnl := pnl - cost;
      }
    }

    /** A completed leg closes the trade, books the P&L and enqueues the other leg. */
    method CompleteLeg(t: LiveTrade, isSl: bool, average: real)
      modifies t, `cancelQueue, `dailyPnl
      ensures var e := CloseByLeg(live, old(t.View()), isSl, average);
              && t.View() == e.trade && cancelQueue == old(cancelQueue) + e.cancels
              && dailyPnl == Booked(old(dailyPnl), e.pnl)
    {
      var pnl := NetResult(t, average);
      t.status, t.exitPrice := Closed, average;
      t.closeReason := if isSl then StopLoss else Target;
      t.realisedPnl := pnl;
      if dailyPnl.Some? {
        dailyPnl := Some(Round2(dailyPnl.value + pnl));
      }
      if live {
        EnqueueCancel(if isSl then t.targetOrderId else t.slOrderId);
      }
    }

    /** The order completed: a leg closes the trade; a new fill of the entry order is protected. */
    method OnComplete(t: LiveTrade, u: Update)
      requires u.status == Complete
      modifies t, `cancelQueue, `dailyPnl, `sent
      ensures var e := OnUpdate(live, old(t.View()), u);
              && t.View() == e.trade && cancelQueue == old(cancelQueue) + e.cancels
              && dailyPnl == Booked(old(dailyPnl), e.pnl) && sent == old(sent) + AllSent(t, e.legs)
    {
      var isSl, isTp := t.slOrderId == Some(u.id), t.targetOrderId == Some(u.id);
      if isSl || isTp {
        CompleteLeg(t, isSl, u.average);
      } else {
        t.filledQuantity, t.averagePrice := u.filled, u.average;
        if t.status == Open && t.slOrderId.Some? && t.quantity == u.filled {
          return;
        }
        t.status, t.entryPrice, t.quantity := Open, u.average, u.filled;
        ReplaceLegs(t, u);
      }
    }

    /** The position is what has been filled so far. */
    method FillPartially(t: LiveTrade, u: Update)
      modifies t
      ensures t.View() == PartiallyFill(Seen(old(t.View()), u), u.filled, u.average)
    {
      if !IsLeg(t.View(), u.id) {
        t.averagePrice := u.average;
      }
      t.status, t.quantity, t.filledQuantity := Open, u.filled, u.filled;
      if u.average > 0.0 {
        t.entryPrice := u.average;
      }
      var stopDistance := Abs(t.entryPrice - t.stopLoss);
      if stopDistance > 0.0 {
        t.riskAmount := RiskOf(u.filled, stopDistance);
      }
    }

    /** An active partial fill resizes the trade and replaces its legs. */
    method OnPartialFill(t: LiveTrade, u: Update)
      requires u.status == Working && u.filled > 0
      modifies t, `cancelQueue, `sent
      ensures var e := OnUpdate(live, old(t.View()), u);
              && t.View() == e.trade && cancelQueue == old(cancelQueue) + e.cancels && e.pnl == None
              && sent == old(sent) + AllSent(t, e.legs)
    {
      FillPartially(t, u);
      ReplaceLegs(t, u);
    }

    /** A rejected or cancelled order: a leg is forgotten; what the entry order filled is protected. */
    method OnDropped(t: LiveTrade, u: Update)
      requires u.status == OrderRejected || u.status == OrderCancelled
      modifies t, `cancelQueue, `sent
      ensures var e := OnUpdate(live, old(t.View()), u);
              && t.View() == e.trade && cancelQueue == old(cancelQueue) + e.cancels && e.pnl == None
              && sent == old(sent) + AllSent(t, e.legs)
    {
      var isSl, isTp := t.slOrderId == Some(u.id), t.targetOrderId == Some(u.id);
      if isSl || isTp {
        if isSl { t.slOrderId := None; }
        if isTp { t.targetOrderId := None; }
        return;
      }
      t.filledQuantity, t.averagePrice := u.filled, u.average;
      if u.filled > 0 {
        t.status, t.quantity := Open, u.filled;
        ReplaceLegs(t, u);
      } else {
        t.status := Closed;
        t.closeReason := if u.status == OrderRejected then EntryRejected else EntryCancelled;
      }
    }

    /** What handle_webhook does once it has found the trade. */
    method UpdateTrade(t: LiveTrade, u: Update)
      modifies t, `cancelQueue, `dailyPnl, `sent
      ensures var e := OnUpdate(live, old(t.View()), u);
              && t.View() == e.trade && cancelQueue == old(cancelQueue) + e.cancels
              && dailyPnl == Booked(old(dailyPnl), e.pnl) && sent == old(sent) + AllSent(t, e.legs)
    {
      if u.status == Complete {
        OnComplete(t, u);
      } else if u.status == Working && u.filled > 0 {
        OnPartialFill(t, u);
      } else if u.status == OrderRejected || u.status == OrderCancelled {
        OnDropped(t, u);
      } else if t.slOrderId != Some(u.id) && t.targetOrderId != Some(u.id) {
        t.filledQuantity, t.averagePrice := u.filled, u.average;
      }
    }

    method HandleWebhook(u: Update)
      requires Valid()
      modifies this, trades
      ensures Valid() && trades == old(trades) && book == Step(live, old(book), Webhook(u))
    {
      var i := FindTrade(u.id);
      if i < |trades| {
        PlacedGrows(sent, trades, book.placed, i, OnUpdate(live, book.trades[i], u).legs);
        UpdateTrade(trades[i], u);
      }
      book := Step(live, book, Webhook(u));
    }

    method PlaceMissingSl(t: LiveTrade, stopLoss: real, reply: Option<OrderId>)
      modifies t`slOrderId, `sent
      ensures var id := PlaceMissing(live, old(t.slOrderId), stopLoss, reply);
              && t.slOrderId == WithLeg(id, old(t.slOrderId))
              && sent == old(sent) + AllSent(t, LegOf(id, t.quantity))
    {
      if t.slOrderId.None? {
        var id := PlaceSlOrder(t, stopLoss, reply);
        if id.Some? { t.slOrderId := id; }
      }
    }

    method PlaceMissingTarget(t: LiveTrade, targetPrice: real, reply: Option<OrderId>)
      modifies t`targetOrderId, `sent
      ensures var id := PlaceMissing(live, old(t.targetOrderId), targetPrice, reply);
              && t.targetOrderId == WithLeg(id, old(t.targetOrderId))
              && sent == old(sent) + AllSent(t, LegOf(id, t.quantity))
    {
      if t.targetOrderId.None? {
        var id := PlaceTargetOrder(t, targetPrice, reply);
        if id.Some? { t.targetOrderId := id; }
      }
    }

    /** The legs a trade lacks are placed, unless it is closed. */
    method PlaceMissingLegs(t: LiveTrade, stopLoss: real, targetPrice: real,
                            slReply: Option<OrderId>, targetReply: Option<OrderId>) returns (done: bool)
      modifies t, `sent
      ensures var e := OnProtect(live, old(t.View()), stopLoss, targetPrice, slReply, targetReply);
              t.View() == e.trade && sent == old(sent) + AllSent(t, e.legs)
      ensures done <==> NeedsNothing(t.View())
    {
      if t.status == Closed || t.status == Rejected || t.status == Cancelled {
        return true;
      }
      PlaceMissingSl(t, stopLoss, slReply);
      PlaceMissingTarget(t, targetPrice, targetReply);
      AllSentConcat(t, LegOf(PlaceMissing(live, old(t.slOrderId), stopLoss, slReply), t.quantity),
                    LegOf(PlaceMissing(live, old(t.targetOrderId), targetPrice, targetReply), t.quantity));
      done := t.slOrderId.Some? && t.targetOrderId.Some?;
    }

    /** One attempt of the protection retry, on its own session. It is the last one when the trade is gone
        or closed, or both legs exist. */
    method PlaceProtection(i: nat, stopLoss: real, targetPrice: real,
                           slReply: Option<OrderId>, targetReply: Option<OrderId>) returns (done: bool)
      requires Valid()
      modifies this, trades
      ensures Valid() && trades == old(trades)
      ensures book == Step(live, old(book), Protect(i, stopLoss, targetPrice, slReply, targetReply))
      ensures done <==> NeedsNoProtection(book.trades, i)
    {
      done := true;
      if i < |trades| {
        PlacedGrows(sent, trades, book.placed, i,
                    OnProtect(live, book.trades[i], stopLoss, targetPrice, slReply, targetReply).legs);
        done := PlaceMissingLegs(trades[i], stopLoss, targetPrice, slReply, targetReply);
      }
      book := Step(live, book, Protect(i, stopLoss, targetPrice, slReply, targetReply));
    }

    /** At most three attempts, nothing else happening in between; earlier only when nothing is left to do. */
    method PlaceProtectionOrdersWithRetry(i: nat, stopLoss: real, targetPrice: real,
                                          replies: seq<(Option<OrderId>, Option<OrderId>)>) returns (attempts: nat)
      requires Valid() && |replies| == 3
      modifies this, trades
      ensures Valid() && trades == old(trades) && 1 <= attempts <= 3
      ensures book == Run(live, old(book), ProtectEvents(i, stopLoss, targetPrice, replies[..attempts]))
      ensures attempts < 3 ==> NeedsNoProtection(book.trades, i)
    {
      attempts := 0;
      var done := false;
      while attempts < 3 && !done
        invariant Valid() && trades == old(trades) && attempts <= 3 && (attempts == 0 ==> !done)
        invariant book == Run(live, old(book), ProtectEvents(i, stopLoss, targetPrice, replies[..attempts]))
        invariant done ==> NeedsNoProtection(book.trades, i)
        decreases 3 - attempts
      {
        var r := replies[attempts];
        done := PlaceProtection(i, stopLoss, targetPrice, r.0, r.1);
        ProtectEventsSnoc(i, stopLoss, targetPrice, replies, attempts);
        attempts := attempts + 1;
      }
    }

    /** In live mode both legs are enqueued for cancellation, and the market order takes the target's place. */
    method Flatten(t: LiveTrade, reply: CloseReply)
      requires t.hasInstrument
      modifies t, `cancelQueue, `sent
      ensures var e := OnMarketClose(live, old(t.View()), reply);
              t.View() == e.trade && cancelQueue == old(cancelQueue) + e.cancels
              && sent == old(sent) + AllSent(t, e.legs)
    {
      if live {
        EnqueueCancel(t.slOrderId);
        t.slOrderId := None;
        EnqueueCancel(t.targetOrderId);
        t.targetOrderId := None;
        if reply.CloseAccepted? && reply.id.Some? {
          t.targetOrderId := reply.id;
          sent := sent + [Sent(t, Leg(reply.id.value, t.quantity))];
        }
      }
    }

    method PlaceMarketCloseOrder(i: nat, reply: CloseReply) returns (ok: bool)
      requires Valid()
      modifies this, trades
      ensures Valid() && trades == old(trades) && book == Step(live, old(book), MarketClose(i, reply))
      ensures ok <==> i < |trades| && trades[i].hasInstrument && (!live || reply.CloseAccepted?)
    {
      ok := i < |trades| && trades[i].hasInstrument && (!live || reply.CloseAccepted?);
      if i < |trades| && trades[i].hasInstrument {
        PlacedGrows(sent, trades, book.placed, i, OnMarketClose(live, book.trades[i], reply).legs);
        Flatten(trades[i], reply);
      }
      book := Step(live, book, MarketClose(i, reply));
    }

    /** The close branch of reconciliation for one open trade. */
    method ReconcileOpenTrade(i: nat, slAnswer: LegAnswer, targetAnswer: LegAnswer)
      requires Valid()
      modifies this, trades
      ensures Valid() && trades == old(trades)
      ensures book == Step(live, old(book), Reconcile(i, slAnswer, targetAnswer))
    {
      if i < |trades| && live && trades[i].status == Open {
        var t := trades[i];
        if t.slOrderId.Some? && slAnswer.LegComplete? {
          CompleteLeg(t, true, slAnswer.average);
        } else if t.targetOrderId.Some? && targetAnswer.LegComplete? {
          CompleteLeg(t, false, targetAnswer.average);
        }
      }
      book := Step(live, book, Reconcile(i, slAnswer, targetAnswer));
    }
  }

  lemma FindIsFirst(trades: seq<Trade>, id: OrderId, i: nat)
    requires i <= |trades| && (i < |trades| ==> Owns(trades[i], id))
    requires forall j :: 0 <= j < i ==> !Owns(trades[j], id)
    ensures Find(trades, id) == i
  {}
}
